/** Budget-safe recovery payloads: packages/contracts/src/projection-recovery.ts. */
module ProjectionRecovery {
  import opened Options
  import opened JsonText
  import opened JsonFacts
  import opened JsHeap
  import opened JsonDataCopy

  const LIMIT_BYTES := 256 * 1024

  const MANUAL_ONLY: Text := U("projection-apply-committed-manual-only")
  const COMMITTED_REASONS: seq<Text> := [
    U("projection-accepted-change-committed"),
    U("projection-apply-request-differs"),
    U("projection-apply-request-digest-unrecorded")
  ]

  const REQUEST_ID: Text := U("requestId")
  const REQUEST_ID_UNAVAILABLE: Text := U("requestIdUnavailable")
  const LOOKUP_KEY: Text := U("lookupKey")
  const APPLY_ID: Text := U("applyId")
  const WRITTEN: Text := U("written")
  const MANUAL_REQUIRED: Text := U("manualRecoveryRequired")
  const READBACK_UNAVAILABLE: Text := U("readbackUnavailable")
  const REQUEST_DIGEST: Text := U("requestDigest")
  const READBACK_REQUEST: Text := U("readbackRequest")
  const BUDGET_EXCEEDED: Text := U("details-budget-exceeded")

  datatype Snapshot = Snapshot(repositoryId: Text, workspaceId: Text, headSha: Text, worktreeDigest: Text)

  datatype AcceptedChange = AcceptedChange(
    changeSetId: Text, eventId: Text, reasonCodes: seq<Text>, affectedNodeIds: seq<Text>)

  datatype Binding = Binding(requestDigest: Option<Text>, targets: seq<Text>, changedPaths: seq<Text>, expected: Snapshot)

  datatype Receipt = Receipt(
    requestId: Text, lookupKey: Text, applyId: Text, acceptedChange: AcceptedChange, recovery: Option<Binding>)

  // ---------------------------------------------------------------------------------------------
  // Text forms

  predicate HexUnit(u: CodeUnit) { 0x30 <= u <= 0x39 || 0x61 <= u <= 0x66 }

  predicate DigestForm(t: Text) {
    |t| == 71 && t[..7] == U("sha256:") && forall i :: 7 <= i < 71 ==> HexUnit(t[i])
  }

  predicate RequestIdUnit(u: CodeUnit) {
    0x30 <= u <= 0x39 || 0x41 <= u <= 0x5A || 0x61 <= u <= 0x7A || u == 0x5F || u == 0x2E || u == 0x3A || u == 0x2D
  }

  predicate RequestIdForm(t: Text) { t != [] && forall i :: 0 <= i < |t| ==> RequestIdUnit(t[i]) }

  /** A digest is the word sha256, a colon and 64 digits or letters from a to f. */
  lemma DigestIff(t: Text)
    ensures DigestForm(t) <==>
            exists hex: Text ::
              |hex| == 64 && t == U("sha256:") + hex &&
              forall u :: u in hex ==> exists c: char :: u == Unit(c) && ('0' <= c <= '9' || 'a' <= c <= 'f')
  {
    if DigestForm(t) {
      var hex := t[7..];
      forall u | u in hex ensures exists c: char :: u == Unit(c) && ('0' <= c <= '9' || 'a' <= c <= 'f') {
        var i :| 0 <= i < 64 && hex[i] == u;
        assert HexUnit(t[i + 7]);
        assert u == Unit(u as char);
      }
      assert t == U("sha256:") + hex;
    }
    if hex: Text :| |hex| == 64 && t == U("sha256:") + hex &&
                    forall u :: u in hex ==> exists c: char :: u == Unit(c) && ('0' <= c <= '9' || 'a' <= c <= 'f') {
      forall i | 7 <= i < 71 ensures HexUnit(t[i]) {
        var u := hex[i - 7];
        assert u in hex && t[i] == u;
      }
      assert t[..7] == U("sha256:");
    }
  }

  /** A request id is made of letters, digits, underscores, dots, colons and hyphens, and is not empty. */
  lemma RequestIdIff(t: Text)
    ensures RequestIdForm(t) <==>
            |t| > 0 &&
            forall u :: u in t ==>
              exists c: char :: u == Unit(c) && ('a' <= c <= 'z' || 'A' <= c <= 'Z' || '0' <= c <= '9' || c in ['_', '.', ':', '-'])
  {
    forall u: CodeUnit
      ensures RequestIdUnit(u) <==>
              exists c: char :: u == Unit(c) && ('a' <= c <= 'z' || 'A' <= c <= 'Z' || '0' <= c <= '9' || c in ['_', '.', ':', '-'])
    {
      if RequestIdUnit(u) { assert u == Unit(u as char); }
    }
    hide RequestIdUnit;
    if RequestIdForm(t) {
      forall u | u in t ensures RequestIdUnit(u) { var i :| 0 <= i < |t| && t[i] == u; }
    }
    if forall u :: u in t ==> RequestIdUnit(u) {
      forall i | 0 <= i < |t| ensures RequestIdUnit(t[i]) { assert t[i] in t; }
    }
  }

  // ---------------------------------------------------------------------------------------------
  // Producers

  function TextList(texts: seq<Text>): Json { Arr(seq(|texts|, i requires 0 <= i < |texts| => Str(texts[i]))) }

  function SnapshotJson(s: Snapshot): Json {
    Obj([Member(U("repositoryId"), Str(s.repositoryId)), Member(U("workspaceId"), Str(s.workspaceId)),
         Member(U("headSha"), Str(s.headSha)), Member(U("worktreeDigest"), Str(s.worktreeDigest))])
  }

  function ChangeJson(change: AcceptedChange): Json {
    Obj([Member(U("changeSetId"), Str(change.changeSetId)), Member(U("eventId"), Str(change.eventId)),
         Member(U("reasonCodes"), TextList(change.reasonCodes)),
         Member(U("affectedNodeIds"), TextList(change.affectedNodeIds))])
  }

  function ReadbackRequest(receipt: Receipt): Option<Json> {
    match receipt.recovery
    case None => None
    case Some(binding) => Some(Obj([
        Member(U("schemaVersion"), Str(U("archcontext.projection-request/v1"))),
        Member(REQUEST_ID, Str(receipt.requestId)),
        Member(U("profile"), Str(U("repo-harness/v1"))),
        Member(U("mode"), Str(U("apply"))),
        Member(U("targets"), TextList(binding.targets)),
        Member(U("changedPaths"), TextList(binding.changedPaths)),
        Member(U("expected"), SnapshotJson(binding.expected)),
        Member(U("acceptedChange"), ChangeJson(receipt.acceptedChange))]))
  }

  function WrittenPart(written: Option<bool>): seq<Member> {
    if written.Some? then [Member(WRITTEN, Bool(written.value))] else []
  }

  function CommittedHead(receipt: Receipt): seq<Member> {
    [Member(REQUEST_ID, Str(receipt.requestId)), Member(LOOKUP_KEY, Str(receipt.lookupKey)),
     Member(APPLY_ID, Str(receipt.applyId))]
    + (if receipt.recovery.Some? && receipt.recovery.value.requestDigest.Some?
       then [Member(REQUEST_DIGEST, Str(receipt.recovery.value.requestDigest.value))] else [])
    + (if receipt.recovery.Some? then [Member(READBACK_REQUEST, ReadbackRequest(receipt).value)] else [])
  }

  function CommittedDetails(receipt: Receipt, written: Option<bool>): Json {
    Obj(CommittedHead(receipt) + WrittenPart(written))
  }

  predicate RecoveryDetailsFit(receipt: Receipt) { Size(CommittedDetails(receipt, Some(false))) <= LIMIT_BYTES }

  function ManualHead(receipt: Receipt, written: Option<bool>): seq<Member> {
    [Member(LOOKUP_KEY, Str(receipt.lookupKey)), Member(APPLY_ID, Str(receipt.applyId)),
     Member(MANUAL_REQUIRED, Bool(true)), Member(READBACK_UNAVAILABLE, Str(BUDGET_EXCEEDED))]
    + WrittenPart(written)
  }

  function ManualWithRequest(receipt: Receipt, written: Option<bool>): Json {
    Obj(ManualHead(receipt, written) + [Member(REQUEST_ID, Str(receipt.requestId))])
  }

  function ManualOnlyDetails(receipt: Receipt, written: Option<bool>): Json {
    if Size(ManualWithRequest(receipt, written)) <= LIMIT_BYTES then ManualWithRequest(receipt, written)
    else Obj(ManualHead(receipt, written) + [Member(REQUEST_ID_UNAVAILABLE, Bool(true))])
  }

  // ---------------------------------------------------------------------------------------------
  // The snapshot validator. Whether a readback request meets its own invariants is a parameter.

  predicate IsDigest(j: Option<Json>) { j.Some? && j.value.Str? && DigestForm(j.value.text) }

  predicate AllowedKeys(members: seq<Member>, manual: bool) {
    forall i :: 0 <= i < |members| ==>
      members[i].key in (
        if manual
        then [REQUEST_ID, REQUEST_ID_UNAVAILABLE, LOOKUP_KEY, APPLY_ID, WRITTEN, MANUAL_REQUIRED, READBACK_UNAVAILABLE]
        else [REQUEST_ID, LOOKUP_KEY, APPLY_ID, REQUEST_DIGEST, READBACK_REQUEST, WRITTEN])
  }

  predicate DetailsValid(reason: Text, details: Json, readbackValid: Json -> bool) {
    && details.Obj?
    && (reason == MANUAL_ONLY || reason in COMMITTED_REASONS)
    && var manual := reason == MANUAL_ONLY;
       var members := details.members;
       var requestId := Lookup(members, REQUEST_ID);
       var requestPresent := requestId.Some? && requestId.value.Str? && RequestIdForm(requestId.value.text);
    && AllowedKeys(members, manual)
    && IsDigest(Lookup(members, LOOKUP_KEY)) && IsDigest(Lookup(members, APPLY_ID))
    && (if manual then
          && Lookup(members, MANUAL_REQUIRED) == Some(Bool(true))
          && Lookup(members, READBACK_UNAVAILABLE) == Some(Str(BUDGET_EXCEEDED))
          && (if requestPresent then Lookup(members, REQUEST_ID_UNAVAILABLE).None?
              else Lookup(members, REQUEST_ID_UNAVAILABLE) == Some(Bool(true)) && requestId.None?)
        else
          && requestPresent
          && (Lookup(members, REQUEST_DIGEST).Some? ==> IsDigest(Lookup(members, REQUEST_DIGEST)))
          && (Lookup(members, READBACK_REQUEST).Some? ==>
                var request := Lookup(members, READBACK_REQUEST).value;
                readbackValid(request) && request.Obj? && Lookup(request.members, REQUEST_ID) == requestId))
    && (Lookup(members, WRITTEN).Some? ==> Lookup(members, WRITTEN).value.Bool?)
  }

  datatype CommittedParts = CommittedParts(
    requestId: Text, lookupKey: Text, applyId: Text, digest: Option<Text>, request: Option<Json>, written: Option<bool>)

  // What committed details hold under a key.
  function CommittedField(p: CommittedParts, key: Text): Option<Json> {
    if key == REQUEST_ID then Some(Str(p.requestId))
    else if key == LOOKUP_KEY then Some(Str(p.lookupKey))
    else if key == APPLY_ID then Some(Str(p.applyId))
    else if key == REQUEST_DIGEST && p.digest.Some? then Some(Str(p.digest.value))
    else if key == READBACK_REQUEST then p.request
    else if key == WRITTEN && p.written.Some? then Some(Bool(p.written.value))
    else None
  }

  // A readback request that is valid and about this request.
  predicate RequestFor(request: Json, requestId: Text, readbackValid: Json -> bool) {
    readbackValid(request) && request.Obj? && Lookup(request.members, REQUEST_ID) == Some(Str(requestId))
  }

  /** A request id, two digests and, if they like, a third, a valid request about the same id and a flag, and nothing else. */
  ghost predicate IsCommitted(members: seq<Member>, p: CommittedParts, readbackValid: Json -> bool) {
    && RequestIdForm(p.requestId) && DigestForm(p.lookupKey) && DigestForm(p.applyId)
    && (p.digest.Some? ==> DigestForm(p.digest.value))
    && (p.request.Some? ==> RequestFor(p.request.value, p.requestId, readbackValid))
    && forall key :: Lookup(members, key) == CommittedField(p, key)
  }

  lemma ValidIsCommitted(reason: Text, members: seq<Member>, readbackValid: Json -> bool) returns (p: CommittedParts)
    requires reason in COMMITTED_REASONS && DetailsValid(reason, Obj(members), readbackValid)
    ensures IsCommitted(members, p, readbackValid)
  {
    hide Lookup, DigestForm, RequestIdForm, AllowedKeys;
    NotManual(reason);
    hide COMMITTED_REASONS;
    var digest, written := Lookup(members, REQUEST_DIGEST), Lookup(members, WRITTEN);
    p := CommittedParts(
      Lookup(members, REQUEST_ID).value.text, Lookup(members, LOOKUP_KEY).value.text, Lookup(members, APPLY_ID).value.text,
      if digest.Some? then Some(digest.value.text) else None, Lookup(members, READBACK_REQUEST),
      if written.Some? then Some(written.value.flag) else None);
    forall key ensures Lookup(members, key) == CommittedField(p, key) {
      if Lookup(members, key).Some? { AllowedLookup(members, false, key); }
    }
  }

  lemma CommittedIsValid(reason: Text, members: seq<Member>, p: CommittedParts, readbackValid: Json -> bool)
    requires reason in COMMITTED_REASONS && IsCommitted(members, p, readbackValid)
    ensures DetailsValid(reason, Obj(members), readbackValid)
  {
    hide Lookup, DigestForm, RequestIdForm, AllowedKeys;
    NotManual(reason);
    FieldNames();
    LookupAllowed(members, false);
  }

  /** Nothing is accepted under any other reason, nor anything but a record. */
  lemma KnownReasons(reason: Text, details: Json, readbackValid: Json -> bool)
    requires DetailsValid(reason, details, readbackValid)
    ensures details.Obj?
    ensures reason in {U("projection-accepted-change-committed"), U("projection-apply-request-differs"),
                       U("projection-apply-request-digest-unrecorded"), U("projection-apply-committed-manual-only")}
  {
    hide IsDigest, AllowedKeys, Lookup, RequestIdForm;
  }

  /** Committed details are accepted exactly when they are such parts. */
  lemma CommittedIff(reason: Text, members: seq<Member>, readbackValid: Json -> bool)
    requires reason in COMMITTED_REASONS
    ensures DetailsValid(reason, Obj(members), readbackValid) <==> exists p :: IsCommitted(members, p, readbackValid)
  {
    hide DetailsValid, IsCommitted;
    if DetailsValid(reason, Obj(members), readbackValid) {
      var p := ValidIsCommitted(reason, members, readbackValid);
    }
    if p :| IsCommitted(members, p, readbackValid) { CommittedIsValid(reason, members, p, readbackValid); }
  }

  lemma NotManual(reason: Text)
    requires reason in COMMITTED_REASONS
    ensures reason != MANUAL_ONLY
  {
    assert |MANUAL_ONLY| == 38 && forall r :: r in COMMITTED_REASONS ==> |r| != 38;
  }

  lemma FieldNames()
    ensures REQUEST_ID != LOOKUP_KEY && APPLY_ID != WRITTEN && |REQUEST_ID| == 9 && |LOOKUP_KEY| == 9 && |APPLY_ID| == 7
    ensures |REQUEST_DIGEST| == 13 && |READBACK_REQUEST| == 15 && |WRITTEN| == 7 && |REQUEST_ID_UNAVAILABLE| == 20
    ensures |MANUAL_REQUIRED| == 22 && |READBACK_UNAVAILABLE| == 19
  {
    assert REQUEST_ID[0] != LOOKUP_KEY[0] && APPLY_ID[0] != WRITTEN[0];
  }

  lemma AllowedLookup(members: seq<Member>, manual: bool, key: Text)
    requires AllowedKeys(members, manual) && Lookup(members, key).Some?
    ensures if manual
            then key == REQUEST_ID || key == REQUEST_ID_UNAVAILABLE || key == LOOKUP_KEY || key == APPLY_ID || key == WRITTEN ||
                 key == MANUAL_REQUIRED || key == READBACK_UNAVAILABLE
            else key == REQUEST_ID || key == LOOKUP_KEY || key == APPLY_ID || key == REQUEST_DIGEST || key == READBACK_REQUEST ||
                 key == WRITTEN
  {
    hide Lookup;
    LookupIndex(members, key);
  }

  lemma LookupAllowed(members: seq<Member>, manual: bool)
    requires forall key :: Lookup(members, key).Some? ==>
               if manual
               then key == REQUEST_ID || key == REQUEST_ID_UNAVAILABLE || key == LOOKUP_KEY || key == APPLY_ID || key == WRITTEN ||
                    key == MANUAL_REQUIRED || key == READBACK_UNAVAILABLE
               else key == REQUEST_ID || key == LOOKUP_KEY || key == APPLY_ID || key == REQUEST_DIGEST || key == READBACK_REQUEST ||
                    key == WRITTEN
    ensures AllowedKeys(members, manual)
  {
    hide Lookup;
    forall i | 0 <= i < |members| ensures Lookup(members, members[i].key).Some? { LookupAbsent(members, members[i].key); }
  }

  datatype ManualParts = ManualParts(requestId: Option<Text>, lookupKey: Text, applyId: Text, written: Option<bool>)

  // What manual-only details hold under a key.
  function ManualField(p: ManualParts, key: Text): Option<Json> {
    if key == LOOKUP_KEY then Some(Str(p.lookupKey))
    else if key == APPLY_ID then Some(Str(p.applyId))
    else if key == MANUAL_REQUIRED then Some(Bool(true))
    else if key == READBACK_UNAVAILABLE then Some(Str(U("details-budget-exceeded")))
    else if key == REQUEST_ID && p.requestId.Some? then Some(Str(p.requestId.value))
    else if key == REQUEST_ID_UNAVAILABLE && p.requestId.None? then Some(Bool(true))
    else if key == WRITTEN && p.written.Some? then Some(Bool(p.written.value))
    else None
  }

  /** Two digests, the two marks, a request id or the mark that it is left out, a flag if they like, and nothing else. */
  ghost predicate IsManual(members: seq<Member>, p: ManualParts) {
    && (p.requestId.Some? ==> RequestIdForm(p.requestId.value)) && DigestForm(p.lookupKey) && DigestForm(p.applyId)
    && forall key :: Lookup(members, key) == ManualField(p, key)
  }

  lemma ValidIsManual(members: seq<Member>, readbackValid: Json -> bool) returns (p: ManualParts)
    requires DetailsValid(MANUAL_ONLY, Obj(members), readbackValid)
    ensures IsManual(members, p)
  {
    hide Lookup, DigestForm, RequestIdForm, AllowedKeys, COMMITTED_REASONS;
    FieldNames();
    var id, written := Lookup(members, REQUEST_ID), Lookup(members, WRITTEN);
    p := ManualParts(
      if id.Some? then Some(id.value.text) else None, Lookup(members, LOOKUP_KEY).value.text, Lookup(members, APPLY_ID).value.text,
      if written.Some? then Some(written.value.flag) else None);
    forall key ensures Lookup(members, key) == ManualField(p, key) {
      if Lookup(members, key).Some? { AllowedLookup(members, true, key); }
    }
  }

  lemma ManualIsValid(members: seq<Member>, p: ManualParts, readbackValid: Json -> bool)
    requires IsManual(members, p)
    ensures DetailsValid(MANUAL_ONLY, Obj(members), readbackValid)
  {
    hide Lookup, DigestForm, RequestIdForm, AllowedKeys, COMMITTED_REASONS;
    FieldNames();
    LookupAllowed(members, true);
  }

  /** Manual-only details are accepted exactly when they are such parts. */
  lemma ManualIff(members: seq<Member>, readbackValid: Json -> bool)
    ensures DetailsValid(MANUAL_ONLY, Obj(members), readbackValid) <==> exists p :: IsManual(members, p)
  {
    hide DetailsValid, IsManual;
    if DetailsValid(MANUAL_ONLY, Obj(members), readbackValid) {
      var p := ValidIsManual(members, readbackValid);
    }
    if p :| IsManual(members, p) { ManualIsValid(members, p, readbackValid); }
  }

  function RecoveryDetailsSnapshot(reason: Text, h: Heap, input: Value, readbackValid: Json -> bool): (r: Option<Json>)
    ensures r.Some? ==> r.value.Obj?
  {
    var copy := Budgeted(PlainCopy(h, input, 0), 0, LIMIT_BYTES);
    if copy.Some? && DetailsValid(reason, copy.value, readbackValid) then copy else None
  }

  method ProjectionRecoveryDetailsSnapshot(reason: Text, h: Heap, input: Value, readbackValid: Json -> bool)
    returns (r: Option<Json>)
    ensures r == RecoveryDetailsSnapshot(reason, h, input, readbackValid)
    ensures forall j :: r == Some(j) <==> Copyable(h, input, LIMIT_BYTES, j) && DetailsValid(reason, j, readbackValid)
  {
    r := JsonDataCopy.JsonDataCopy(h, input, LIMIT_BYTES);
    ghost var copy := r;
    if r.Some? && !DetailsValid(reason, r.value, readbackValid) {
      r := None;
    }
    SnapshotIff(reason, h, input, readbackValid);
    if copy.Some? { assert Copyable(h, input, LIMIT_BYTES, copy.value); }
  }

  // The snapshot returns exactly the plain, bounded and valid data it is given.
  lemma SnapshotIff(reason: Text, h: Heap, input: Value, readbackValid: Json -> bool)
    ensures forall j :: RecoveryDetailsSnapshot(reason, h, input, readbackValid) == Some(j) <==>
                        Copyable(h, input, LIMIT_BYTES, j) && DetailsValid(reason, j, readbackValid)
  {
    hide DetailsValid, PlainCopy, Denotes, Within, Size;
    forall j ensures RecoveryDetailsSnapshot(reason, h, input, readbackValid) == Some(j) <==>
                     Copyable(h, input, LIMIT_BYTES, j) && DetailsValid(reason, j, readbackValid) {
      CopyIff(h, input, 0, j);
    }
  }

  // ---------------------------------------------------------------------------------------------
  // Main results

  // The fit test is exact for the longest branch, so it decides all three.
  lemma FitCoversEveryBranch(receipt: Receipt)
    ensures RecoveryDetailsFit(receipt) <==>
            forall written: Option<bool> :: Size(CommittedDetails(receipt, written)) <= LIMIT_BYTES
  {
    var head := CommittedHead(receipt);
    forall written: Option<bool>
      ensures Size(CommittedDetails(receipt, written)) <= Size(CommittedDetails(receipt, Some(false)))
    {
      BoolSize(false);
      MemberSizes(head, Member(WRITTEN, Bool(false)));
      if written.Some? {
        BoolSize(written.value);
        MemberSizes(head, Member(WRITTEN, Bool(written.value)));
      } else {
        assert head + [] == head;
      }
    }
  }

  // The reduced form always fits: its identities are digests and the rest is fixed.
  lemma ReducedFits(receipt: Receipt, written: Option<bool>)
    requires DigestForm(receipt.lookupKey) && DigestForm(receipt.applyId)
    ensures Size(Obj(ManualHead(receipt, written) + [Member(REQUEST_ID_UNAVAILABLE, Bool(true))])) <= 10_000
  {
    hide EntrySize, MembersSize, Size;
    var members := ManualHead(receipt, written) + [Member(REQUEST_ID_UNAVAILABLE, Bool(true))];
    forall i | 0 <= i < |members| ensures EntrySize(members[i]) <= 1000 {
      EntryBound(members[i]);
    }
    MembersSizeBound(members, 1000);
    SizeIsSum(Obj(members));
  }

  lemma KeysDistinct()
    ensures REQUEST_ID != LOOKUP_KEY && APPLY_ID != WRITTEN
  {
    assert REQUEST_ID[0] != LOOKUP_KEY[0] && APPLY_ID[0] != WRITTEN[0];
  }

  // Manual-only details always fit when the identities are digests.
  lemma ManualOnlyFits(receipt: Receipt, written: Option<bool>)
    requires DigestForm(receipt.lookupKey) && DigestForm(receipt.applyId)
    ensures Size(ManualOnlyDetails(receipt, written)) <= LIMIT_BYTES
  {
    ReducedFits(receipt, written);
  }

  // What the manual-only members hold under each key the validator reads.
  lemma ManualLookups(receipt: Receipt, written: Option<bool>, last: Member)
    requires last.key == REQUEST_ID || last.key == REQUEST_ID_UNAVAILABLE
    ensures var members := ManualHead(receipt, written) + [last];
            && Lookup(members, LOOKUP_KEY) == Some(Str(receipt.lookupKey))
            && Lookup(members, APPLY_ID) == Some(Str(receipt.applyId))
            && Lookup(members, MANUAL_REQUIRED) == Some(Bool(true))
            && Lookup(members, READBACK_UNAVAILABLE) == Some(Str(BUDGET_EXCEEDED))
            && Lookup(members, WRITTEN) == (if written.Some? then Some(Bool(written.value)) else None)
            && Lookup(members, REQUEST_ID) == (if last.key == REQUEST_ID then Some(last.value) else None)
            && Lookup(members, REQUEST_ID_UNAVAILABLE) == (if last.key == REQUEST_ID_UNAVAILABLE then Some(last.value) else None)
            && AllowedKeys(members, true)
  {
    hide Lookup;
    KeysDistinct();
    var members := ManualHead(receipt, written) + [last];
    forall i | 0 <= i < |members| ensures Lookup(members, members[i].key) == Some(members[i].value) {
      LookupAt(members, i);
    }
    assert members[0].key == LOOKUP_KEY && members[1].key == APPLY_ID;
    assert members[2].key == MANUAL_REQUIRED && members[3].key == READBACK_UNAVAILABLE;
    assert members[|members| - 1] == last;
    if written.Some? { assert members[4] == Member(WRITTEN, Bool(written.value)); }
    LookupAbsent(members, WRITTEN);
    LookupAbsent(members, REQUEST_ID);
    LookupAbsent(members, REQUEST_ID_UNAVAILABLE);
  }

  // The manual-only form is valid exactly when its identities are digests and its request id is well formed or left out.
  lemma ManualOnlyValid(receipt: Receipt, written: Option<bool>, readbackValid: Json -> bool)
    ensures DetailsValid(MANUAL_ONLY, ManualOnlyDetails(receipt, written), readbackValid) <==>
            DigestForm(receipt.lookupKey) && DigestForm(receipt.applyId) &&
            (RequestIdForm(receipt.requestId) || Size(ManualWithRequest(receipt, written)) > LIMIT_BYTES)
  {
    hide Size, Lookup, AllowedKeys, DigestForm, RequestIdForm;
    ManualLookups(receipt, written, Member(REQUEST_ID, Str(receipt.requestId)));
    ManualLookups(receipt, written, Member(REQUEST_ID_UNAVAILABLE, Bool(true)));
  }

  lemma CommittedLookups(receipt: Receipt, written: Option<bool>)
    ensures var members := CommittedDetails(receipt, written).members;
            var binding := receipt.recovery;
            && Lookup(members, REQUEST_ID) == Some(Str(receipt.requestId))
            && Lookup(members, LOOKUP_KEY) == Some(Str(receipt.lookupKey))
            && Lookup(members, APPLY_ID) == Some(Str(receipt.applyId))
            && Lookup(members, REQUEST_DIGEST) == (if binding.Some? && binding.value.requestDigest.Some?
                                                   then Some(Str(binding.value.requestDigest.value)) else None)
            && Lookup(members, READBACK_REQUEST) == ReadbackRequest(receipt)
            && Lookup(members, WRITTEN) == (if written.Some? then Some(Bool(written.value)) else None)
            && AllowedKeys(members, false)
  {
    hide Lookup, ReadbackRequest;
    ReadbackShape(receipt);
    var members := CommittedDetails(receipt, written).members;
    CommittedKeys(receipt, written);
    hide DistinctMembers;
    forall i | 0 <= i < |members| ensures Lookup(members, members[i].key) == Some(members[i].value) {
      LookupAt(members, i);
    }
    assert members[0].key == REQUEST_ID && members[1].key == LOOKUP_KEY && members[2].key == APPLY_ID;
    var head := CommittedHead(receipt);
    if receipt.recovery.Some? { assert members[|head| - 1] == Member(READBACK_REQUEST, ReadbackRequest(receipt).value); }
    if receipt.recovery.Some? && receipt.recovery.value.requestDigest.Some? { assert members[3].key == REQUEST_DIGEST; }
    if written.Some? { assert members[|head|] == Member(WRITTEN, Bool(written.value)); }
    LookupAbsent(members, REQUEST_DIGEST);
    LookupAbsent(members, READBACK_REQUEST);
    LookupAbsent(members, WRITTEN);
  }

  // The keys of committed details, in their order.
  function CommittedKeyList(receipt: Receipt, written: Option<bool>): seq<Text> {
    [REQUEST_ID, LOOKUP_KEY, APPLY_ID]
    + (if receipt.recovery.Some? && receipt.recovery.value.requestDigest.Some? then [REQUEST_DIGEST] else [])
    + (if receipt.recovery.Some? then [READBACK_REQUEST] else []) + (if written.Some? then [WRITTEN] else [])
  }

  lemma CommittedKeys(receipt: Receipt, written: Option<bool>)
    ensures var members := CommittedDetails(receipt, written).members; DistinctMembers(members) && AllowedKeys(members, false)
    ensures receipt.recovery.None? || receipt.recovery.value.requestDigest.None? ==>
              forall m :: m in CommittedDetails(receipt, written).members ==> m.key != REQUEST_DIGEST
    ensures receipt.recovery.None? ==> forall m :: m in CommittedDetails(receipt, written).members ==> m.key != READBACK_REQUEST
    ensures written.None? ==> forall m :: m in CommittedDetails(receipt, written).members ==> m.key != WRITTEN
  {
    KeyListDistinct(receipt, written);
    var members, keys := CommittedDetails(receipt, written).members, CommittedKeyList(receipt, written);
    assert |members| == |keys| && forall i :: 0 <= i < |members| ==> members[i].key == keys[i];
    hide *;
    KeysCarry(members, keys);
  }

  lemma KeyListDistinct(receipt: Receipt, written: Option<bool>)
    ensures var keys := CommittedKeyList(receipt, written);
            && (forall i, j :: 0 <= i < j < |keys| ==> keys[i] != keys[j])
            && (forall k :: k in keys ==> k in [REQUEST_ID, LOOKUP_KEY, APPLY_ID, REQUEST_DIGEST, READBACK_REQUEST, WRITTEN])
            && (receipt.recovery.None? || receipt.recovery.value.requestDigest.None? ==> REQUEST_DIGEST !in keys)
            && (receipt.recovery.None? ==> READBACK_REQUEST !in keys) && (written.None? ==> WRITTEN !in keys)
  {
    KeysDistinct();
    assert |REQUEST_ID| == 9 && |LOOKUP_KEY| == 9 && |APPLY_ID| == 7 && |REQUEST_DIGEST| == 13;
    assert |READBACK_REQUEST| == 15 && |WRITTEN| == 7;
  }

  lemma KeysCarry(members: seq<Member>, keys: seq<Text>)
    requires |members| == |keys| && forall i :: 0 <= i < |members| ==> members[i].key == keys[i]
    requires forall i, j :: 0 <= i < j < |keys| ==> keys[i] != keys[j]
    requires forall k :: k in keys ==> k in [REQUEST_ID, LOOKUP_KEY, APPLY_ID, REQUEST_DIGEST, READBACK_REQUEST, WRITTEN]
    ensures DistinctMembers(members) && AllowedKeys(members, false)
    ensures forall key, m :: key !in keys && m in members ==> m.key != key
  {}

  // The readback request is about the receipt's own request.
  lemma ReadbackShape(receipt: Receipt)
    ensures ReadbackRequest(receipt).Some? == receipt.recovery.Some?
    ensures ReadbackRequest(receipt).Some? ==>
              var request := ReadbackRequest(receipt).value;
              request.Obj? && Lookup(request.members, REQUEST_ID) == Some(Str(receipt.requestId))
  {
    if receipt.recovery.Some? {
      var members := ReadbackRequest(receipt).value.members;
      assert members[0].key != REQUEST_ID && members[1].key == REQUEST_ID;
      assert Lookup(members, REQUEST_ID) == Lookup(members[1..], REQUEST_ID);
    }
  }

  // What a receipt must hold for its committed details to be valid.
  predicate SoundReceipt(receipt: Receipt, readbackValid: Json -> bool) {
    && RequestIdForm(receipt.requestId) && DigestForm(receipt.lookupKey) && DigestForm(receipt.applyId)
    && (receipt.recovery.Some? && receipt.recovery.value.requestDigest.Some? ==>
          DigestForm(receipt.recovery.value.requestDigest.value))
    && (receipt.recovery.Some? ==> readbackValid(ReadbackRequest(receipt).value))
  }

  lemma CommittedValid(reason: Text, receipt: Receipt, written: Option<bool>, readbackValid: Json -> bool)
    requires reason in COMMITTED_REASONS
    ensures DetailsValid(reason, CommittedDetails(receipt, written), readbackValid) <==> SoundReceipt(receipt, readbackValid)
  {
    assert reason != MANUAL_ONLY by {
      assert |MANUAL_ONLY| == 38 && forall r :: r in COMMITTED_REASONS ==> |r| != 38;
    }
    CommittedLookups(receipt, written);
    ReadbackShape(receipt);
    hide Lookup, AllowedKeys, DigestForm, RequestIdForm, ReadbackRequest;
  }

  // Committed details nest four levels deep at most.
  lemma RequestShallow(receipt: Receipt)
    ensures ReadbackRequest(receipt).Some? ==> Within(ReadbackRequest(receipt).value, 3)
  {
    if receipt.recovery.Some? {
      var binding := receipt.recovery.value;
      TextsShallow(binding.targets);
      TextsShallow(binding.changedPaths);
      ChangeShallow(receipt.acceptedChange);
      assert Within(SnapshotJson(binding.expected), 2);
    }
  }

  lemma TextsShallow(texts: seq<Text>)
    ensures Within(TextList(texts), 1) && Within(TextList(texts), 2)
  {}

  lemma ChangeShallow(change: AcceptedChange)
    ensures Within(ChangeJson(change), 2)
  {
    TextsShallow(change.reasonCodes);
    TextsShallow(change.affectedNodeIds);
  }

  lemma {:induction false} WithinMore(j: Json, d: nat, e: nat)
    requires Within(j, d) && d <= e
    ensures Within(j, e)
    decreases j
  {
    match j {
      case Arr(items) =>
        forall i | 0 <= i < |items| ensures Within(items[i], e - 1) { WithinMore(items[i], d - 1, e - 1); }
      case Obj(members) =>
        forall i | 0 <= i < |members| ensures Within(members[i].value, e - 1) { WithinMore(members[i].value, d - 1, e - 1); }
      case _ =>
    }
  }

  lemma CommittedShallow(receipt: Receipt, written: Option<bool>)
    ensures Within(CommittedDetails(receipt, written), DEPTH_LIMIT)
  {
    RequestShallow(receipt);
    hide ReadbackRequest;
    ReadbackShape(receipt);
    var members := CommittedDetails(receipt, written).members;
    forall i | 0 <= i < |members| ensures Within(members[i].value, DEPTH_LIMIT - 1) {
      if members[i].value.Obj? { WithinMore(members[i].value, 3, DEPTH_LIMIT - 1); }
    }
  }

  // The committed details pass the snapshot unchanged exactly when the receipt is sound and they fit.
  lemma CommittedPassesSnapshot(
    reason: Text, receipt: Receipt, written: Option<bool>, h: Heap, v: Value, readbackValid: Json -> bool)
    requires reason in COMMITTED_REASONS
    requires Denotes(h, v, CommittedDetails(receipt, written))
    ensures RecoveryDetailsSnapshot(reason, h, v, readbackValid) == Some(CommittedDetails(receipt, written)) <==>
            SoundReceipt(receipt, readbackValid) &&
            Size(CommittedDetails(receipt, written)) <= LIMIT_BYTES
  {
    hide *;
    CommittedShallow(receipt, written);
    CommittedValid(reason, receipt, written, readbackValid);
    PassesIff(reason, h, v, CommittedDetails(receipt, written), readbackValid);
  }

  lemma PassesIff(reason: Text, h: Heap, v: Value, details: Json, readbackValid: Json -> bool)
    requires Denotes(h, v, details)
    ensures RecoveryDetailsSnapshot(reason, h, v, readbackValid) == Some(details) <==>
            Within(details, DEPTH_LIMIT) && Size(details) <= LIMIT_BYTES && DetailsValid(reason, details, readbackValid)
  {
    hide Denotes, Within, Size, DetailsValid, RecoveryDetailsSnapshot;
    SnapshotIff(reason, h, v, readbackValid);
  }

  // A receipt that fits passes in all three branches: later failures deliver it whole.
  lemma FitPassesEveryBranch(
    reason: Text, receipt: Receipt, written: Option<bool>, h: Heap, v: Value, readbackValid: Json -> bool)
    requires reason in COMMITTED_REASONS && RecoveryDetailsFit(receipt) && SoundReceipt(receipt, readbackValid)
    requires Denotes(h, v, CommittedDetails(receipt, written))
    ensures RecoveryDetailsSnapshot(reason, h, v, readbackValid) == Some(CommittedDetails(receipt, written))
  {
    hide *;
    FitCoversEveryBranch(receipt);
    CommittedPassesSnapshot(reason, receipt, written, h, v, readbackValid);
  }

  // Manual-only details pass the snapshot unchanged exactly when the identities are digests and the
  // request id is well formed, or was left out because it is too long.
  lemma ManualOnlyPassesSnapshot(receipt: Receipt, written: Option<bool>, h: Heap, v: Value, readbackValid: Json -> bool)
    requires Denotes(h, v, ManualOnlyDetails(receipt, written))
    ensures RecoveryDetailsSnapshot(MANUAL_ONLY, h, v, readbackValid) == Some(ManualOnlyDetails(receipt, written)) <==>
            DigestForm(receipt.lookupKey) && DigestForm(receipt.applyId) &&
            (RequestIdForm(receipt.requestId) || Size(ManualWithRequest(receipt, written)) > LIMIT_BYTES)
  {
    assert Within(ManualOnlyDetails(receipt, written), DEPTH_LIMIT);
    hide *;
    ManualOnlyValid(receipt, written, readbackValid);
    PassesIff(MANUAL_ONLY, h, v, ManualOnlyDetails(receipt, written), readbackValid);
    if DigestForm(receipt.lookupKey) && DigestForm(receipt.applyId) {
      ManualOnlyFits(receipt, written);
    }
  }
}

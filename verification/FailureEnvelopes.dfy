/** Failures, their envelopes and the envelope budget: packages/contracts/src/failure.ts. */
module FailureEnvelopes {
  import opened JsonText
  import opened JsonFacts
  import opened PrettyJson
  import opened FailureModel

  datatype Failure = Failure(
    code: Text, message: Text, severity: Text, retryable: bool, action: Text, reasonCode: Text, details: Json)

  datatype Envelope = Envelope(requestId: Text, error: Failure)

  const CODE: Text := U("code")
  const MESSAGE: Text := U("message")
  const SEVERITY: Text := U("severity")
  const RETRYABLE: Text := U("retryable")
  const ACTION: Text := U("action")
  const REASON_CODE: Text := U("reasonCode")
  const DETAILS: Text := U("details")
  const SCHEMA: Text := U("archcontext.envelope/v1")

  function FailureHead(f: Failure): seq<Member> {
    [Member(CODE, Str(f.code)), Member(MESSAGE, Str(f.message)), Member(SEVERITY, Str(f.severity)),
     Member(RETRYABLE, Bool(f.retryable)), Member(ACTION, Str(f.action)), Member(REASON_CODE, Str(f.reasonCode))]
  }

  function FailureJson(f: Failure): Json { Obj(FailureHead(f) + [Member(DETAILS, f.details)]) }

  function EnvelopeHead(requestId: Text): seq<Member> {
    [Member(U("schemaVersion"), Str(SCHEMA)), Member(U("ok"), Bool(false)), Member(U("requestId"), Str(requestId))]
  }

  function EnvelopeJson(e: Envelope): Json { Obj(EnvelopeHead(e.requestId) + [Member(ERROR, FailureJson(e.error))]) }

  // Both printed forms of an envelope stay within the limit.
  predicate EnvelopeFits(e: Envelope) {
    Size(EnvelopeJson(e)) <= DETAILS_LIMIT && PrintedSize(EnvelopeJson(e)) <= DETAILS_LIMIT
  }

  /** The budget does not see the order in which the details are listed. */
  lemma EnvelopePermuted(e: Envelope, a: seq<Member>, b: seq<Member>)
    requires multiset(a) == multiset(b)
    requires e.error.details == Obj(a)
    ensures var f := e.(error := e.error.(details := Obj(b)));
            Size(EnvelopeJson(e)) == Size(EnvelopeJson(f)) && PrintedSize(EnvelopeJson(e)) == PrintedSize(EnvelopeJson(f))
  {
    hide Size, PrettySize, PrintedSize;
    var f := e.(error := e.error.(details := Obj(b)));
    SizesPermuted(a, b, 4);
    assert FailureHead(e.error) == FailureHead(f.error);
    LastResized(FailureHead(e.error), DETAILS, Obj(a), Obj(b), 2);
    LastResized(EnvelopeHead(e.requestId), ERROR, FailureJson(e.error), FailureJson(f.error), 0);
    PrintedBytes(EnvelopeJson(e));
    PrintedBytes(EnvelopeJson(f));
  }

  // ---------------------------------------------------------------------------------------------
  // A bound for records of short scalars

  // A text has no more code units than bytes.
  lemma {:induction false} UnitsWithinBytes(t: Text)
    ensures |t| <= Bytes(t)
    decreases |t|
  {
    if t != [] {
      if Pair(t) { UnitsWithinBytes(t[2..]); } else { UnitsWithinBytes(t[1..]); }
    }
  }

  // The most bytes a member with a flag or a short text can take.
  function ScalarBound(m: Member): nat
    requires m.value.Bool? || m.value.Str?
  {
    6 * |m.key| + 22 + if m.value.Str? then 6 * |m.value.text| else 0
  }

  function ScalarBounds(members: seq<Member>): nat
    requires forall i :: 0 <= i < |members| ==> members[i].value.Bool? || members[i].value.Str?
  {
    if members == [] then 0 else ScalarBound(members[0]) + ScalarBounds(members[1..])
  }

  // Neither form of a record of scalars, closed by one more value, is larger than its parts allow.
  lemma ScalarRecord(members: seq<Member>, key: Text, last: Json, d: nat)
    requires forall i :: 0 <= i < |members| ==> members[i].value.Bool? || members[i].value.Str?
    ensures Size(Obj(members + [Member(key, last)]))
            <= ScalarBounds(members) + |members| + 6 * |key| + 6 + Size(last)
    ensures PrettySize(Obj(members + [Member(key, last)]), d)
            <= ScalarBounds(members) + (d + 5) * |members| + 6 * |key| + 2 * d + 10 + PrettySize(last, d + 2)
  {
    hide Size, PrettySize;
    CompactScalars(members, Member(key, last));
    PrettyScalars(members, d + 2);
    QuoteBound(key);
    PrettyIsSum(members + [Member(key, last)], d);
    LinesAppend(members, [Member(key, last)], d + 2);
    LastLine(Member(key, last), d + 2);
    assert (d + 2 + 3) * |members| == (d + 5) * |members|;
  }

  lemma {:induction false} CompactScalars(members: seq<Member>, last: Member)
    requires forall i :: 0 <= i < |members| ==> members[i].value.Bool? || members[i].value.Str?
    ensures Size(Obj(members + [last])) <= ScalarBounds(members) + |members| + 2 + EntrySize(last)
    ensures Size(Obj(members)) <= ScalarBounds(members) + |members| + 2
  {
    hide Size, EntrySize;
    MemberSizes(members, last);
    if members == [] {
      SizeIsSum(Obj([]));
    } else {
      var n := |members| - 1;
      var m := members[n];
      assert members == members[..n] + [m];
      CompactScalars(members[..n], m);
      EntryBound(m);
      BoundsAppend(members[..n], m);
    }
  }

  lemma {:induction false} BoundsAppend(members: seq<Member>, m: Member)
    requires forall i :: 0 <= i < |members| ==> members[i].value.Bool? || members[i].value.Str?
    requires m.value.Bool? || m.value.Str?
    ensures ScalarBounds(members + [m]) == ScalarBounds(members) + ScalarBound(m)
  {
    if members == [] {
      assert (members + [m])[1..] == [];
    } else {
      assert (members + [m])[1..] == members[1..] + [m];
      BoundsAppend(members[1..], m);
    }
  }

  lemma {:induction false} PrettyScalars(members: seq<Member>, d: nat)
    requires forall i :: 0 <= i < |members| ==> members[i].value.Bool? || members[i].value.Str?
    ensures PrettyLines(members, d) <= ScalarBounds(members) + (d + 3) * |members|
  {
    if members != [] {
      PrettyScalars(members[1..], d);
      PrettyScalar(members[0].value, d);
      EntryBound(members[0]);
      assert (d + 3) * |members| == (d + 3) * (|members| - 1) + (d + 3);
    }
  }

  // ---------------------------------------------------------------------------------------------
  // The envelope of an unclassified failure always fits

  // At most a stage and an error class.
  predicate UnclassifiedDetails(j: Json) {
    j.Obj? && |j.members| <= 2 &&
    forall i :: 0 <= i < |j.members| ==>
      j.members[i].value.Str? && |j.members[i].value.text| <= 19 &&
      (j.members[i].key == STAGE || j.members[i].key == ERROR_CLASS)
  }

  lemma {:induction false} ScalarBoundsMost(members: seq<Member>, most: nat)
    requires forall i :: 0 <= i < |members| ==> members[i].value.Str? && ScalarBound(members[i]) <= most
    ensures ScalarBounds(members) <= |members| * most
  {
    if members != [] {
      ScalarBoundsMost(members[1..], most);
      assert |members| * most == (|members| - 1) * most + most;
    }
  }

  lemma UnclassifiedDetailsSize(j: Json)
    requires UnclassifiedDetails(j)
    ensures Size(j) <= 400 && PrettySize(j, 4) <= 450
  {
    hide Size, PrettySize;
    ScalarBoundsMost(j.members, 196);
    CompactScalars(j.members, Member([], Null));
    PrettyIsSum(j.members, 4);
    PrettyScalars(j.members, 6);
  }

  lemma UnclassifiedHead(f: Failure, requestId: Text)
    requires f.code == UNCLASSIFIED && f.message == UNCLASSIFIED_MESSAGE && f.severity == ERROR
    requires f.action == INSPECT && f.reasonCode == UNCLASSIFIED_REASON && |requestId| <= SHORT
    ensures ScalarBounds(FailureHead(f)) <= 2000 && ScalarBounds(EnvelopeHead(requestId)) <= 2500
  {
    Scalars6(FailureHead(f));
    Scalars3(EnvelopeHead(requestId));
  }

  lemma Scalars3(m: seq<Member>)
    requires |m| == 3 && forall i :: 0 <= i < |m| ==> m[i].value.Bool? || m[i].value.Str?
    ensures ScalarBounds(m) == ScalarBound(m[0]) + ScalarBound(m[1]) + ScalarBound(m[2])
  {
    hide ScalarBound;
    assert m[1..][1..] == m[2..] && m[2..][1..] == [];
    assert ScalarBounds(m) == ScalarBound(m[0]) + ScalarBounds(m[1..]);
    assert ScalarBounds(m[1..]) == ScalarBound(m[1]) + ScalarBounds(m[2..]);
  }

  lemma Scalars6(m: seq<Member>)
    requires |m| == 6 && forall i :: 0 <= i < |m| ==> m[i].value.Bool? || m[i].value.Str?
    ensures ScalarBounds(m) == ScalarBound(m[0]) + ScalarBound(m[1]) + ScalarBound(m[2])
                               + ScalarBound(m[3]) + ScalarBound(m[4]) + ScalarBound(m[5])
  {
    hide ScalarBound;
    Scalars3(m[3..]);
    assert m[1..][1..] == m[2..] && m[2..][1..] == m[3..];
    assert ScalarBounds(m) == ScalarBound(m[0]) + ScalarBounds(m[1..]);
    assert ScalarBounds(m[1..]) == ScalarBound(m[1]) + ScalarBounds(m[2..]);
    assert ScalarBounds(m[2..]) == ScalarBound(m[2]) + ScalarBounds(m[3..]);
  }

  /** Whatever the request id, the error class and the stage, an unclassified failure has an envelope. */
  lemma UnclassifiedFits(f: Failure, requestId: Text)
    requires f.code == UNCLASSIFIED && f.message == UNCLASSIFIED_MESSAGE && f.severity == ERROR
    requires f.action == INSPECT && f.reasonCode == UNCLASSIFIED_REASON
    requires UnclassifiedDetails(f.details) && Bytes(requestId) <= SHORT
    ensures EnvelopeFits(Envelope(requestId, f))
  {
    hide Size, PrettySize, PrintedSize, ScalarBounds, UnclassifiedDetails;
    UnitsWithinBytes(requestId);
    UnclassifiedHead(f, requestId);
    UnclassifiedDetailsSize(f.details);
    ScalarRecord(FailureHead(f), DETAILS, f.details, 2);
    ScalarRecord(EnvelopeHead(requestId), ERROR, FailureJson(f), 0);
    PrintedBytes(EnvelopeJson(Envelope(requestId, f)));
  }
}

/** Fitting native diagnostics into the envelope: packages/contracts/src/failure.ts, the second half of nativeFactsFor. */
module NativeFitting {
  import opened Options
  import opened JsonText
  import opened JsonFacts
  import opened PrettyJson
  import opened FailureModel
  import opened FailureEnvelopes
  import opened NativeCollection

  // ---------------------------------------------------------------------------------------------
  // Records under assignment and deletion of one key

  function Put(members: seq<Member>, key: Text, value: Json): seq<Member> {
    if members == [] then [Member(key, value)]
    else if members[0].key == key then [Member(key, value)] + members[1..]
    else [members[0]] + Put(members[1..], key, value)
  }

  function Without(members: seq<Member>, key: Text): seq<Member> {
    if members == [] then []
    else if members[0].key == key then members[1..]
    else [members[0]] + Without(members[1..], key)
  }

  // The weight of what is under a key.
  function WeightAt(members: seq<Member>, key: Text, f: Member -> nat): nat {
    match Lookup(members, key)
    case None => 0
    case Some(value) => f(Member(key, value))
  }

  lemma {:induction false} PutLookup(members: seq<Member>, key: Text, value: Json, other: Text)
    ensures Lookup(Put(members, key, value), other) == if other == key then Some(value) else Lookup(members, other)
  {
    if members != [] && members[0].key != key {
      PutLookup(members[1..], key, value, other);
      assert ([members[0]] + Put(members[1..], key, value))[1..] == Put(members[1..], key, value);
    } else if members != [] {
      assert ([Member(key, value)] + members[1..])[1..] == members[1..];
    }
  }

  lemma {:induction false} PutSum(members: seq<Member>, key: Text, value: Json, f: Member -> nat)
    ensures Sum(Put(members, key, value), f) + WeightAt(members, key, f) == Sum(members, f) + f(Member(key, value))
  {
    if members != [] {
      assert members[0] == Member(members[0].key, members[0].value);
      if members[0].key != key {
        PutSum(members[1..], key, value, f);
        assert ([members[0]] + Put(members[1..], key, value))[1..] == Put(members[1..], key, value);
      } else {
        assert ([Member(key, value)] + members[1..])[1..] == members[1..];
      }
    }
  }

  lemma {:induction false} PutKeys(members: seq<Member>, key: Text, value: Json)
    ensures DistinctMembers(members) ==> DistinctMembers(Put(members, key, value))
    ensures forall m :: m in Put(members, key, value) ==> m == Member(key, value) || (m in members && m.key != key) || !DistinctMembers(members)
  {
    if members != [] && members[0].key != key {
      PutKeys(members[1..], key, value);
      if DistinctMembers(members) {
        assert DistinctMembers(members[1..]);
        var rest := Put(members[1..], key, value);
        forall i | 0 <= i < |rest| ensures rest[i].key != members[0].key {
          assert rest[i] in rest;
        }
      }
    }
  }

  lemma {:induction false} PutSame(members: seq<Member>, key: Text, value: Json)
    requires Lookup(members, key) == Some(value)
    ensures Put(members, key, value) == members
  {
    if members[0].key != key {
      PutSame(members[1..], key, value);
    } else {
      assert members[0] == Member(key, value);
    }
  }

  lemma {:induction false} PutNew(members: seq<Member>, key: Text, value: Json)
    requires Lookup(members, key).None?
    ensures Put(members, key, value) == members + [Member(key, value)]
  {
    if members != [] {
      PutNew(members[1..], key, value);
    }
  }

  lemma {:induction false} WithoutLookup(members: seq<Member>, key: Text, other: Text)
    requires DistinctMembers(members)
    ensures Lookup(Without(members, key), other) == if other == key then None else Lookup(members, other)
  {
    if members != [] {
      if members[0].key != key {
        WithoutLookup(members[1..], key, other);
        assert ([members[0]] + Without(members[1..], key))[1..] == Without(members[1..], key);
      } else {
        LookupAbsent(members[1..], key);
      }
    }
  }

  lemma {:induction false} WithoutSum(members: seq<Member>, key: Text, f: Member -> nat)
    ensures Sum(Without(members, key), f) + WeightAt(members, key, f) == Sum(members, f)
  {
    if members != [] {
      assert members[0] == Member(members[0].key, members[0].value);
      if members[0].key != key {
        WithoutSum(members[1..], key, f);
        assert ([members[0]] + Without(members[1..], key))[1..] == Without(members[1..], key);
      }
    }
  }

  lemma {:induction false} WithoutKeys(members: seq<Member>, key: Text)
    requires DistinctMembers(members)
    ensures DistinctMembers(Without(members, key))
    ensures forall m :: m in Without(members, key) ==> m in members && m.key != key
  {
    if members != [] && members[0].key != key {
      WithoutKeys(members[1..], key);
      var rest := Without(members[1..], key);
      forall i | 0 <= i < |rest| ensures rest[i].key != members[0].key {
        assert rest[i] in rest;
      }
    }
  }

  lemma {:induction false} WithoutSame(members: seq<Member>, key: Text)
    requires Lookup(members, key).None?
    ensures Without(members, key) == members
  {
    if members != [] {
      WithoutSame(members[1..], key);
    }
  }

  // ---------------------------------------------------------------------------------------------
  // The path summary and the counters

  function PathOf(issue: Json): Option<Text> {
    if !issue.Obj? then None
    else
      match Lookup(issue.members, PATH)
      case Some(Str(path)) => Some(path)
      case _ => None
  }

  function IssuesIn(members: seq<Member>): seq<Json> {
    match Lookup(members, ISSUES)
    case Some(Arr(items)) => items
    case _ => []
  }

  predicate Summarizes(issues: seq<Json>) { exists i :: 0 <= i < |issues| && PathOf(issues[i]).Some? }

  // The path all issues share, if they do.
  function Summary(issues: seq<Json>): Option<Text> {
    if issues != [] && forall i :: 0 <= i < |issues| ==> PathOf(issues[i]) == PathOf(issues[0]) then PathOf(issues[0])
    else None
  }

  function Summarized(summarize: bool, members: seq<Member>): seq<Member> {
    if !summarize then members
    else
      match Summary(IssuesIn(members))
      case Some(path) => Put(members, PATH, Str(path))
      case None => Without(members, PATH)
  }

  function Counted(members: seq<Member>, key: Text, n: nat): seq<Member>
    requires n <= MAX_SAFE_INTEGER
  {
    if n == 0 then members else Put(members, key, Int(n))
  }

  function Refresh(summarize: bool, d: Draft<Member>): Option<seq<Member>> {
    if d.omitted > MAX_SAFE_INTEGER || d.characters > MAX_SAFE_INTEGER then None
    else Some(Counted(Counted(Summarized(summarize, d.kept), OMITTED_DIAGNOSTICS, d.omitted),
                      OMITTED_CHARACTERS, d.characters))
  }

  // ---------------------------------------------------------------------------------------------
  // The fitting loop

  const EXPORT_ID: Text := U("export.native")

  function NativeFailure(c: Table, reason: Text, policy: Policy, members: seq<Member>): Failure
    requires policy.code in c.catalog
  {
    var base := c.catalog[policy.code];
    Failure(policy.code, policy.message, base.severity,
            if policy.retryable.Some? then policy.retryable.value else base.retryable,
            if policy.action.Some? then policy.action.value else base.action, reason, Obj(members))
  }

  predicate Fits(c: Table, reason: Text, policy: Policy, members: seq<Member>)
    requires policy.code in c.catalog
  {
    Size(Obj(members)) <= DETAILS_LIMIT &&
    PrintedSize(EnvelopeJson(Envelope(EXPORT_ID, NativeFailure(c, reason, policy, members)))) <= DETAILS_LIMIT
  }

  // The last key with a nonempty list, and the last key with a string.
  function LastList(members: seq<Member>): (r: Option<nat>)
    ensures r.Some? ==> r.value < |members| && members[r.value].value.Arr? && members[r.value].value.items != []
    ensures forall i :: (if r.Some? then r.value else -1) < i < |members| && members[i].value.Arr? ==> members[i].value.items == []
  {
    if members == [] then None
    else
      var n := |members| - 1;
      if members[n].value.Arr? && members[n].value.items != [] then Some(n) else LastList(members[..n])
  }

  function LastText(members: seq<Member>): (r: Option<nat>)
    ensures r.Some? ==> r.value < |members| && members[r.value].value.Str?
    ensures forall i :: (if r.Some? then r.value else -1) < i < |members| ==> !members[i].value.Str?
  {
    if members == [] then None
    else
      var n := |members| - 1;
      if members[n].value.Str? then Some(n) else LastText(members[..n])
  }

  // One omission: the last entry of the last nonempty list, else the last string.
  function Shrink(members: seq<Member>, d: Draft<Member>): (r: Option<Draft<Member>>) {
    match LastList(members)
    case Some(i) =>
      var items := members[i].value.items;
      var n := |items| - 1;
      Some(Draft(members[i := Member(members[i].key, Arr(items[..n]))], d.omitted + 1, d.characters + Letters(items[n])))
    case None =>
      match LastText(members)
      case Some(i) => Some(Draft(members[..i] + members[i + 1..], d.omitted + 1, d.characters + |members[i].value.text|))
      case None => None
  }

  // List entries and strings left: the measure of the loop.
  function EntryWeight(m: Member): nat { if m.value.Arr? then |m.value.items| else 0 }

  function TextWeight(m: Member): nat { if m.value.Str? then 1 else 0 }

  function Entries(members: seq<Member>): nat { Sum(members, EntryWeight) }

  function Strings(members: seq<Member>): nat { Sum(members, TextWeight) }

  // What collecting leaves: distinct keys, a textual path where it is to be summarised, and numbers as counters.
  predicate Tidy(summarize: bool, members: seq<Member>) {
    && DistinctMembers(members)
    && (summarize && Lookup(members, PATH).Some? ==> Lookup(members, PATH).value.Str?)
    && (Lookup(members, OMITTED_DIAGNOSTICS).Some? ==> Lookup(members, OMITTED_DIAGNOSTICS).value.Int?)
    && (Lookup(members, OMITTED_CHARACTERS).Some? ==> Lookup(members, OMITTED_CHARACTERS).value.Int?)
  }

  lemma FittingKeys()
    ensures PATH != ISSUES && PATH != OMITTED_DIAGNOSTICS && PATH != OMITTED_CHARACTERS
    ensures ISSUES != OMITTED_DIAGNOSTICS && ISSUES != OMITTED_CHARACTERS && OMITTED_DIAGNOSTICS != OMITTED_CHARACTERS
  {
    assert |PATH| == 4 && |ISSUES| == 6 && |OMITTED_DIAGNOSTICS| == 22 && |OMITTED_CHARACTERS| == 27;
  }

  // Refreshing touches the path and the counters only.
  lemma RefreshLookup(summarize: bool, d: Draft<Member>, key: Text)
    requires Refresh(summarize, d).Some? && DistinctMembers(d.kept)
    ensures var members := Refresh(summarize, d).value;
            && DistinctMembers(members)
            && (key != PATH && !IsCounter(key) ==> Lookup(members, key) == Lookup(d.kept, key))
            && Lookup(members, PATH)
               == (if !summarize then Lookup(d.kept, PATH)
                   else match Summary(IssuesIn(d.kept)) case None => None case Some(path) => Some(Str(path)))
            && Lookup(members, OMITTED_DIAGNOSTICS)
               == (if d.omitted == 0 then Lookup(d.kept, OMITTED_DIAGNOSTICS) else Some(Int(d.omitted)))
            && Lookup(members, OMITTED_CHARACTERS)
               == (if d.characters == 0 then Lookup(d.kept, OMITTED_CHARACTERS) else Some(Int(d.characters)))
  {
    hide Put, Without, Lookup, DistinctMembers, Summary, IssuesIn;
    FittingKeys();
    var a := Summarized(summarize, d.kept);
    var b := Counted(a, OMITTED_DIAGNOSTICS, d.omitted);
    SummarizedLookup(summarize, d.kept, key);
    SummarizedLookup(summarize, d.kept, OMITTED_DIAGNOSTICS);
    SummarizedLookup(summarize, d.kept, OMITTED_CHARACTERS);
    CountedLookup(a, OMITTED_DIAGNOSTICS, d.omitted, key);
    CountedLookup(a, OMITTED_DIAGNOSTICS, d.omitted, PATH);
    CountedLookup(a, OMITTED_DIAGNOSTICS, d.omitted, OMITTED_CHARACTERS);
    CountedLookup(b, OMITTED_CHARACTERS, d.characters, key);
    CountedLookup(b, OMITTED_CHARACTERS, d.characters, PATH);
    CountedLookup(b, OMITTED_CHARACTERS, d.characters, OMITTED_DIAGNOSTICS);
  }

  lemma SummarizedLookup(summarize: bool, members: seq<Member>, key: Text)
    requires DistinctMembers(members)
    ensures DistinctMembers(Summarized(summarize, members))
    ensures key != PATH ==> Lookup(Summarized(summarize, members), key) == Lookup(members, key)
    ensures Lookup(Summarized(summarize, members), PATH)
            == (if !summarize then Lookup(members, PATH)
                else match Summary(IssuesIn(members)) case None => None case Some(path) => Some(Str(path)))
  {
    hide Put, Without, Lookup, DistinctMembers, Summary, IssuesIn;
    if summarize {
      match Summary(IssuesIn(members)) {
        case Some(path) =>
          PutLookup(members, PATH, Str(path), key);
          PutLookup(members, PATH, Str(path), PATH);
          PutKeys(members, PATH, Str(path));
        case None =>
          WithoutLookup(members, PATH, key);
          WithoutLookup(members, PATH, PATH);
          WithoutKeys(members, PATH);
      }
    }
  }

  lemma CountedLookup(members: seq<Member>, key: Text, n: nat, other: Text)
    requires n <= MAX_SAFE_INTEGER && DistinctMembers(members)
    ensures DistinctMembers(Counted(members, key, n))
    ensures other != key ==> Lookup(Counted(members, key, n), other) == Lookup(members, other)
    ensures Lookup(Counted(members, key, n), key) == if n == 0 then Lookup(members, key) else Some(Int(n))
  {
    hide Put, Lookup, DistinctMembers;
    if n > 0 {
      PutLookup(members, key, Int(n), other);
      PutLookup(members, key, Int(n), key);
      PutKeys(members, key, Int(n));
    }
  }

  // The weight of a refreshed record, for a weight that ignores what refreshing touches but the path.
  lemma RefreshSum(summarize: bool, d: Draft<Member>, f: Member -> nat)
    requires Refresh(summarize, d).Some? && Tidy(summarize, d.kept)
    requires forall n: SafeInt :: f(Member(OMITTED_DIAGNOSTICS, Int(n))) == 0 && f(Member(OMITTED_CHARACTERS, Int(n))) == 0
    ensures var members := Refresh(summarize, d).value;
            Tidy(summarize, members) &&
            Sum(members, f) + (if summarize then WeightAt(d.kept, PATH, f) else 0)
            == Sum(d.kept, f) + (if summarize then WeightAt(members, PATH, f) else 0)
  {
    hide Put, Without, Lookup, DistinctMembers, Summary, IssuesIn, Sum;
    FittingKeys();
    var a := Summarized(summarize, d.kept);
    SummarizedSum(summarize, d.kept, f);
    SummarizedLookup(summarize, d.kept, OMITTED_DIAGNOSTICS);
    SummarizedLookup(summarize, d.kept, OMITTED_CHARACTERS);
    var b := Counted(a, OMITTED_DIAGNOSTICS, d.omitted);
    CountedSum(a, OMITTED_DIAGNOSTICS, d.omitted, f);
    CountedLookup(a, OMITTED_DIAGNOSTICS, d.omitted, OMITTED_CHARACTERS);
    CountedSum(b, OMITTED_CHARACTERS, d.characters, f);
    RefreshLookup(summarize, d, PATH);
  }

  lemma SummarizedSum(summarize: bool, members: seq<Member>, f: Member -> nat)
    requires DistinctMembers(members)
    ensures var next := Summarized(summarize, members);
            Sum(next, f) + (if summarize then WeightAt(members, PATH, f) else 0)
            == Sum(members, f) + (if summarize then WeightAt(next, PATH, f) else 0)
  {
    hide Put, Without, Lookup, Summary, IssuesIn, Sum;
    if summarize {
      match Summary(IssuesIn(members)) {
        case Some(path) =>
          PutLookup(members, PATH, Str(path), PATH);
          PutSum(members, PATH, Str(path), f);
        case None =>
          WithoutLookup(members, PATH, PATH);
          WithoutSum(members, PATH, f);
      }
    }
  }

  lemma CountedSum(members: seq<Member>, key: Text, n: nat, f: Member -> nat)
    requires n <= MAX_SAFE_INTEGER && (Lookup(members, key).Some? ==> Lookup(members, key).value.Int?)
    requires forall n: SafeInt :: f(Member(key, Int(n))) == 0
    ensures Sum(Counted(members, key, n), f) == Sum(members, f)
  {
    hide Put, Lookup, Sum;
    if n > 0 {
      PutSum(members, key, Int(n), f);
    }
  }

  // With no list entry left there is nothing to summarise.
  lemma NoEntriesNoPath(summarize: bool, d: Draft<Member>)
    requires Refresh(summarize, d).Some? && Tidy(summarize, d.kept) && summarize
    requires LastList(Refresh(summarize, d).value).None?
    ensures Lookup(Refresh(summarize, d).value, PATH).None?
  {
    hide Lookup, Refresh, LastList;
    FittingKeys();
    RefreshLookup(summarize, d, ISSUES);
    NoEntries(Refresh(summarize, d).value, ISSUES);
  }

  lemma NoEntries(members: seq<Member>, key: Text)
    requires LastList(members).None?
    ensures Lookup(members, key).Some? && Lookup(members, key).value.Arr? ==> Lookup(members, key).value.items == []
  {
    hide LastList, Lookup;
    if Lookup(members, key).Some? {
      LookupIndex(members, key);
    }
  }

  // What one omission takes from any weight.
  lemma ShrinkSum(members: seq<Member>, d: Draft<Member>, f: Member -> nat)
    requires Shrink(members, d).Some?
    ensures var next := Shrink(members, d).value.kept;
            match LastList(members)
            case Some(i) => Sum(next, f) + f(members[i]) == Sum(members, f) + f(next[i])
            case None => Sum(next, f) + f(members[LastText(members).value]) == Sum(members, f)
  {
    var next := Shrink(members, d).value.kept;
    match LastList(members) {
      case Some(i) =>
        WithoutOne(members, i, f);
        WithoutOne(next, i, f);
        assert next[..i] + next[i + 1..] == members[..i] + members[i + 1..];
      case None =>
        WithoutOne(members, LastText(members).value, f);
    }
  }

  lemma ShrinkTidy(summarize: bool, members: seq<Member>, d: Draft<Member>)
    requires Tidy(summarize, members) && Shrink(members, d).Some?
    ensures Tidy(summarize, Shrink(members, d).value.kept)
  {
    var next := Shrink(members, d).value.kept;
    forall key ensures Lookup(next, key).Some? ==>
                         Lookup(members, key).Some? && (Lookup(next, key) == Lookup(members, key) || Lookup(members, key).value.Arr?)
    {
      ShrinkLookup(members, d, key);
    }
    ShrinkKeys(members, d);
  }

  lemma ShrinkKeys(members: seq<Member>, d: Draft<Member>)
    requires DistinctMembers(members) && Shrink(members, d).Some?
    ensures DistinctMembers(Shrink(members, d).value.kept)
  {}

  // Under each key stands what stood there, or its list less the last entry, or nothing where a string was.
  lemma ShrinkLookup(members: seq<Member>, d: Draft<Member>, key: Text)
    requires DistinctMembers(members) && Shrink(members, d).Some?
    ensures var now, was := Lookup(Shrink(members, d).value.kept, key), Lookup(members, key);
            now == was ||
            (was.Some? && was.value.Arr? && was.value.items != [] && now == Some(Arr(was.value.items[..|was.value.items| - 1]))) ||
            (was.Some? && was.value.Str? && now.None? && LastList(members).None?)
  {
    hide Lookup, DistinctMembers;
    match LastList(members)
    case Some(i) => ReplaceLookup(members, i, Shrink(members, d).value.kept[i].value, key);
    case None => RemoveLookup(members, LastText(members).value, key);
  }

  lemma ReplaceLookup(members: seq<Member>, i: nat, value: Json, key: Text)
    requires DistinctMembers(members) && i < |members|
    ensures Lookup(members[i := Member(members[i].key, value)], key)
            == if key == members[i].key then Some(value) else Lookup(members, key)
    ensures Lookup(members, members[i].key) == Some(members[i].value)
  {
    hide Lookup;
    var next := members[i := Member(members[i].key, value)];
    assert DistinctMembers(next);
    LookupAbsent(members, key);
    LookupAbsent(next, key);
    LookupAt(next, i);
    LookupAt(members, i);
    if Lookup(members, key).Some? {
      LookupIndex(members, key);
      var k :| 0 <= k < |members| && members[k] == Member(key, Lookup(members, key).value);
      LookupAt(next, k);
    }
  }

  lemma {:induction false} RemoveLookup(members: seq<Member>, i: nat, key: Text)
    requires DistinctMembers(members) && i < |members|
    ensures Lookup(members[..i] + members[i + 1..], key) == if key == members[i].key then None else Lookup(members, key)
    ensures Lookup(members, members[i].key) == Some(members[i].value)
  {
    LookupAt(members, i);
    if i == 0 {
      assert members[..0] + members[1..] == members[1..];
      LookupAbsent(members[1..], members[0].key);
    } else {
      RemoveLookup(members[1..], i - 1, key);
      assert members[..i] + members[i + 1..] == [members[0]] + (members[1..][..i - 1] + members[1..][i..]);
      assert (members[..i] + members[i + 1..])[1..] == members[1..][..i - 1] + members[1..][i..];
    }
  }

  // The loop measure: an omission removes a list entry, or a string when no list entry is left.
  lemma FitDecreases(summarize: bool, d: Draft<Member>)
    requires Tidy(summarize, d.kept) && Refresh(summarize, d).Some?
    ensures var members := Refresh(summarize, d).value;
            Tidy(summarize, members) && Entries(members) == Entries(d.kept) &&
            (Shrink(members, d).Some? ==>
               var next := Shrink(members, d).value;
               Tidy(summarize, next.kept) &&
               (Entries(next.kept) < Entries(d.kept) ||
                (Entries(next.kept) == Entries(d.kept) && Strings(next.kept) < Strings(d.kept))))
  {
    hide Refresh, Lookup, DistinctMembers, Sum, LastList, LastText;
    var members := Refresh(summarize, d).value;
    RefreshSum(summarize, d, EntryWeight);
    RefreshSum(summarize, d, TextWeight);
    RefreshLookup(summarize, d, PATH);
    if Shrink(members, d).Some? {
      ShrinkTidy(summarize, members, d);
      ShrinkSum(members, d, EntryWeight);
      ShrinkSum(members, d, TextWeight);
      if summarize && LastList(members).None? { NoEntriesNoPath(summarize, d); }
    }
  }

  function Fit(c: Table, reason: Text, policy: Policy, summarize: bool, d: Draft<Member>): Option<seq<Member>>
    requires policy.code in c.catalog && Tidy(summarize, d.kept)
    decreases Entries(d.kept), Strings(d.kept)
  {
    var members :- Refresh(summarize, d);
    FitDecreases(summarize, d);
    if Fits(c, reason, policy, members) then Some(members)
    else
      var next :- Shrink(members, d);
      Fit(c, reason, policy, summarize, next)
  }

  method FitBudget(c: Table, reason: Text, policy: Policy, summarize: bool, start: Draft<Member>)
    returns (r: Option<seq<Member>>)
    requires policy.code in c.catalog && Tidy(summarize, start.kept)
    ensures r == Fit(c, reason, policy, summarize, start)
  {
    var result, omitted, characters := start.kept, start.omitted, start.characters;
    hide Refresh, Shrink, Fits;
    while true
      invariant Tidy(summarize, result)
      invariant Fit(c, reason, policy, summarize, Draft(result, omitted, characters))
                == Fit(c, reason, policy, summarize, start)
      decreases Entries(result), Strings(result)
    {
      var d := Draft(result, omitted, characters);
      var members := Refresh(summarize, d);
      if members.None? { return None; }
      FitDecreases(summarize, d);
      if Fits(c, reason, policy, members.value) { return members; }
      var next := Shrink(members.value, d);
      if next.None? { return None; }
      result, omitted, characters := next.value.kept, next.value.omitted, next.value.characters;
    }
  }
}

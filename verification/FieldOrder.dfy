/** In which order fitting leaves path and counters: packages/contracts/src/failure.ts, lines 689-714. */
module FieldOrder {
  import opened Options
  import opened JsonText
  import opened JsonFacts
  import opened FailureModel
  import opened NativeCollection
  import opened NativeFitting
  import opened NativeConservation
  import opened NativeFixedPoint

  // ---------------------------------------------------------------------------------------------
  // One key before another

  predicate Has(members: seq<Member>, key: Text) { Lookup(members, key).Some? }

  predicate Precedes(members: seq<Member>, a: Text, b: Text) {
    members != [] && if members[0].key == a then Has(members[1..], b) else Precedes(members[1..], a, b)
  }

  lemma {:induction false} PrecedesHas(members: seq<Member>, a: Text, b: Text)
    requires Precedes(members, a, b)
    ensures Has(members, a) && Has(members, b)
  {
    if members[0].key != a { PrecedesHas(members[1..], a, b); }
  }

  lemma HasTail(members: seq<Member>)
    requires members != [] && DistinctMembers(members)
    ensures DistinctMembers(members[1..]) && !Has(members[1..], members[0].key)
  {
    LookupAbsent(members[1..], members[0].key);
  }

  // A new key comes last, and an old one stays where it is.
  lemma {:induction false} PutPrecedes(members: seq<Member>, key: Text, value: Json, a: Text, b: Text)
    requires DistinctMembers(members) && a != b
    ensures Precedes(Put(members, key, value), a, b)
            <==> Precedes(members, a, b) || (!Has(members, key) && b == key && Has(members, a))
  {
    if members == [] {
      assert Put(members, key, value)[1..] == [];
    } else {
      var more := Put(members, key, value);
      HasTail(members);
      hide DistinctMembers;
      if members[0].key == key {
        assert more[0].key == key && more[1..] == members[1..];
      } else {
        assert more[0] == members[0] && more[1..] == Put(members[1..], key, value);
        PutPrecedes(members[1..], key, value, a, b);
        PutLookup(members[1..], key, value, b);
      }
    }
  }

  lemma {:induction false} WithoutPrecedes(members: seq<Member>, key: Text, a: Text, b: Text)
    requires DistinctMembers(members) && a != b
    ensures Precedes(Without(members, key), a, b) <==> Precedes(members, a, b) && a != key && b != key
  {
    if members != [] {
      HasTail(members);
      if members[0].key == key {
        if Precedes(members[1..], a, b) { PrecedesHas(members[1..], a, b); }
      } else {
        var less := Without(members, key);
        assert less[0] == members[0] && less[1..] == Without(members[1..], key);
        WithoutPrecedes(members[1..], key, a, b);
        WithoutLookup(members[1..], key, b);
        if Precedes(members[1..], a, b) { PrecedesHas(members[1..], a, b); }
      }
    }
  }

  lemma {:induction false} SameKeys(m: seq<Member>, n: seq<Member>, a: Text, b: Text)
    requires |m| == |n| && forall i :: 0 <= i < |m| ==> m[i].key == n[i].key
    ensures Has(m, a) == Has(n, a) && Has(m, b) == Has(n, b) && Precedes(m, a, b) == Precedes(n, a, b)
  {
    if m != [] {
      SameKeys(m[1..], n[1..], a, b);
    }
  }

  lemma {:induction false} RemoveIsWithout(members: seq<Member>, i: nat)
    requires DistinctMembers(members) && i < |members|
    ensures members[..i] + members[i + 1..] == Without(members, members[i].key)
  {
    if i == 0 {
      assert members[..0] + members[1..] == members[1..];
    } else {
      RemoveIsWithout(members[1..], i - 1);
      assert members[..i] + members[i + 1..] == [members[0]] + (members[1..][..i - 1] + members[1..][i..]);
    }
  }

  lemma {:induction false} PrecedesAt(members: seq<Member>, i: nat, j: nat)
    requires DistinctMembers(members) && i < j < |members|
    ensures Precedes(members, members[i].key, members[j].key)
  {
    if i == 0 {
      assert members[1..][j - 1] == members[j];
      LookupAt(members[1..], j - 1);
    } else {
      PrecedesAt(members[1..], i - 1, j - 1);
    }
  }

  lemma {:induction false} PrecedesWhere(members: seq<Member>, a: Text, b: Text)
    requires Precedes(members, a, b)
    ensures exists i, j :: 0 <= i < j < |members| && members[i].key == a && members[j].key == b
  {
    if members[0].key == a {
      LookupIndex(members[1..], b);
      var j :| 0 <= j < |members| - 1 && members[1..][j] == Member(b, Lookup(members[1..], b).value);
      assert members[0].key == a && members[j + 1].key == b;
    } else {
      PrecedesWhere(members[1..], a, b);
      var i, j :| 0 <= i < j < |members| - 1 && members[1..][i].key == a && members[1..][j].key == b;
      assert members[i + 1].key == a && members[j + 1].key == b;
    }
  }

  // No counter stands before a field that is none.
  ghost predicate CountersBehind(members: seq<Member>) {
    forall c, k :: IsCounter(c) && !IsCounter(k) ==> !Precedes(members, c, k)
  }

  lemma CountersLastIff(members: seq<Member>)
    requires DistinctMembers(members)
    ensures CountersLast(members) <==> CountersBehind(members) && !Precedes(members, OMITTED_CHARACTERS, OMITTED_DIAGNOSTICS)
  {
    hide Precedes;
    FittingKeys();
    if CountersLast(members) {
      forall a, b | Precedes(members, a, b) ensures IsCounter(a) ==> a == OMITTED_DIAGNOSTICS && b == OMITTED_CHARACTERS {
        PrecedesWhere(members, a, b);
      }
    } else {
      var i, j :| 0 <= i < j < |members| && IsCounter(members[i].key) &&
                  !(members[i].key == OMITTED_DIAGNOSTICS && members[j].key == OMITTED_CHARACTERS);
      PrecedesAt(members, i, j);
      assert members[i].key != members[j].key;
    }
  }

  // ---------------------------------------------------------------------------------------------
  // One turn

  predicate Late(members: seq<Member>, key: Text) {
    Precedes(members, OMITTED_DIAGNOSTICS, key) || Precedes(members, OMITTED_CHARACTERS, key)
  }

  predicate Counting(members: seq<Member>) { Has(members, OMITTED_DIAGNOSTICS) || Has(members, OMITTED_CHARACTERS) }

  function SummaryOf(members: seq<Member>): Option<Text> { Summary(IssuesIn(members)) }

  // Whether a path that is there in the end stands behind a counter, once an omission was counted.
  predicate LatePath(members: seq<Member>) {
    SummaryOf(members).Some? ==> if Has(members, PATH) then Late(members, PATH) else Counting(members)
  }

  lemma CountedPrecedes(members: seq<Member>, key: Text, n: nat, a: Text, b: Text)
    requires n <= MAX_SAFE_INTEGER && DistinctMembers(members) && a != b
    ensures Precedes(Counted(members, key, n), a, b)
            <==> Precedes(members, a, b) || (n > 0 && !Has(members, key) && b == key && Has(members, a))
  {
    if n > 0 { PutPrecedes(members, key, Int(n), a, b); }
  }

  lemma SummarizedPrecedes(summarize: bool, members: seq<Member>, a: Text, b: Text)
    requires DistinctMembers(members) && a != b
    ensures Precedes(Summarized(summarize, members), a, b) <==>
            if !summarize then Precedes(members, a, b)
            else if SummaryOf(members).Some?
            then Precedes(members, a, b) || (!Has(members, PATH) && b == PATH && Has(members, a))
            else Precedes(members, a, b) && a != PATH && b != PATH
  {
    hide Precedes, Put, Without, Summary, IssuesIn, Lookup, DistinctMembers;
    if summarize {
      match SummaryOf(members) {
        case Some(path) => PutPrecedes(members, PATH, Str(path), a, b);
        case None => WithoutPrecedes(members, PATH, a, b);
      }
    }
  }

  // What one refresh does to a pair of keys.
  lemma RefreshPrecedes(summarize: bool, d: Draft<Member>, a: Text, b: Text)
    requires Refresh(summarize, d).Some? && DistinctMembers(d.kept) && a != b
    ensures Precedes(Refresh(summarize, d).value, a, b) <==>
            || Precedes(Summarized(summarize, d.kept), a, b)
            || (d.omitted > 0 && !Has(d.kept, OMITTED_DIAGNOSTICS) && b == OMITTED_DIAGNOSTICS
                && Has(Summarized(summarize, d.kept), a))
            || (d.characters > 0 && !Has(d.kept, OMITTED_CHARACTERS) && b == OMITTED_CHARACTERS
                && (Has(Summarized(summarize, d.kept), a) || (d.omitted > 0 && a == OMITTED_DIAGNOSTICS)))
  {
    hide Precedes, Summarized, Counted, Lookup, DistinctMembers;
    FittingKeys();
    var s := Summarized(summarize, d.kept);
    SummarizedLookup(summarize, d.kept, OMITTED_DIAGNOSTICS);
    SummarizedLookup(summarize, d.kept, OMITTED_CHARACTERS);
    CountedPrecedes(s, OMITTED_DIAGNOSTICS, d.omitted, a, b);
    CountedLookup(s, OMITTED_DIAGNOSTICS, d.omitted, OMITTED_CHARACTERS);
    CountedLookup(s, OMITTED_DIAGNOSTICS, d.omitted, a);
    CountedPrecedes(Counted(s, OMITTED_DIAGNOSTICS, d.omitted), OMITTED_CHARACTERS, d.characters, a, b);
  }

  // A turn with something counted: the count is put before the characters unless these stood there first.
  lemma TurnCounters(summarize: bool, d: Draft<Member>)
    requires Refresh(summarize, d).Some? && DistinctMembers(d.kept) && d.omitted > 0
    ensures var members := Refresh(summarize, d).value;
            Has(members, OMITTED_DIAGNOSTICS) &&
            (Precedes(members, OMITTED_CHARACTERS, OMITTED_DIAGNOSTICS) <==>
             Precedes(d.kept, OMITTED_CHARACTERS, OMITTED_DIAGNOSTICS)
             || (Has(d.kept, OMITTED_CHARACTERS) && !Has(d.kept, OMITTED_DIAGNOSTICS)))
  {
    hide Precedes, Refresh, Summarized, Lookup, DistinctMembers, Summary, IssuesIn;
    FittingKeys();
    RefreshLookup(summarize, d, PATH);
    SummarizedLookup(summarize, d.kept, OMITTED_CHARACTERS);
    SummarizedPrecedes(summarize, d.kept, OMITTED_CHARACTERS, OMITTED_DIAGNOSTICS);
    RefreshPrecedes(summarize, d, OMITTED_CHARACTERS, OMITTED_DIAGNOSTICS);
  }

  // No turn puts a counter before another field, but for a path that it summarises.
  lemma TurnFields(summarize: bool, d: Draft<Member>, c: Text, k: Text)
    requires Refresh(summarize, d).Some? && DistinctMembers(d.kept) && IsCounter(c) && !IsCounter(k)
    requires !(summarize && k == PATH)
    ensures Precedes(Refresh(summarize, d).value, c, k) ==> Precedes(d.kept, c, k)
  {
    hide Precedes, Refresh, Summarized, Lookup, DistinctMembers, Summary, IssuesIn;
    SummarizedPrecedes(summarize, d.kept, c, k);
    RefreshPrecedes(summarize, d, c, k);
  }

  lemma TurnPath(d: Draft<Member>)
    requires Refresh(true, d).Some? && DistinctMembers(d.kept)
    ensures var members := Refresh(true, d).value;
            && SummaryOf(members) == SummaryOf(d.kept)
            && (Has(members, PATH) <==> SummaryOf(d.kept).Some?)
            && (Late(members, PATH) <==> Has(members, PATH) && LatePath(d.kept))
  {
    hide Precedes, Refresh, Summarized, Lookup, DistinctMembers, Summary, IssuesIn;
    FittingKeys();
    RefreshLookup(true, d, ISSUES);
    SameIssues(Refresh(true, d).value, d.kept);
    SummarizedPrecedes(true, d.kept, OMITTED_DIAGNOSTICS, PATH);
    SummarizedPrecedes(true, d.kept, OMITTED_CHARACTERS, PATH);
    RefreshPrecedes(true, d, OMITTED_DIAGNOSTICS, PATH);
    RefreshPrecedes(true, d, OMITTED_CHARACTERS, PATH);
    if Late(d.kept, PATH) { LateHas(d.kept); }
  }

  lemma LateHas(members: seq<Member>)
    requires Late(members, PATH)
    ensures Has(members, PATH)
  {
    hide Precedes;
    if Precedes(members, OMITTED_DIAGNOSTICS, PATH) { PrecedesHas(members, OMITTED_DIAGNOSTICS, PATH); }
    else { PrecedesHas(members, OMITTED_CHARACTERS, PATH); }
  }

  lemma SameIssues(m: seq<Member>, n: seq<Member>)
    requires Lookup(m, ISSUES) == Lookup(n, ISSUES)
    ensures IssuesIn(m) == IssuesIn(n)
  {}

  // One omission leaves every pair that stays in its order.
  lemma ShrinkPrecedes(members: seq<Member>, d: Draft<Member>, a: Text, b: Text)
    requires DistinctMembers(members) && Shrink(members, d).Some? && a != b
    ensures var next := Shrink(members, d).value.kept;
            Precedes(next, a, b) <==> Precedes(members, a, b) && Has(next, a) && Has(next, b)
  {
    hide Precedes, LastList, LastText, Without;
    var next := Shrink(members, d).value.kept;
    match LastList(members) {
      case Some(i) =>
        hide DistinctMembers, Lookup;
        SameKeys(members, next, a, b);
        if Precedes(members, a, b) { PrecedesHas(members, a, b); }
      case None =>
        var i := LastText(members).value;
        RemoveIsWithout(members, i);
        hide DistinctMembers, Lookup;
        WithoutPrecedes(members, members[i].key, a, b);
        WithoutLookup(members, members[i].key, a);
        WithoutLookup(members, members[i].key, b);
        if Precedes(members, a, b) { PrecedesHas(members, a, b); }
    }
  }

  // Counters are numbers, so no omission takes them; and while issues are left it takes no path.
  lemma ShrinkHas(members: seq<Member>, d: Draft<Member>, key: Text)
    requires DistinctMembers(members) && Shrink(members, d).Some?
    requires Has(members, key) ==> Lookup(members, key).value.Int? || (key == PATH && SummaryOf(members).Some?)
    ensures Has(Shrink(members, d).value.kept, key) == Has(members, key)
  {
    hide Lookup, Shrink, DistinctMembers, LastList;
    ShrinkLookup(members, d, key);
    if SummaryOf(members).Some? && LastList(members).None? { NoEntries(members, ISSUES); }
  }

  // ---------------------------------------------------------------------------------------------
  // A whole run

  // Once there was a summary and then none, there is never one again: the issues are used up.
  lemma SummaryGone(c: Table, reason: Text, policy: Policy, d: Draft<Member>)
    requires policy.code in c.catalog && Tidy(true, d.kept) && Refresh(true, d).Some?
    requires Shrink(Refresh(true, d).value, d).Some?
    requires var next := Shrink(Refresh(true, d).value, d).value;
             Tidy(true, next.kept) && SummaryOf(d.kept).Some? && SummaryOf(next.kept).None? &&
             Fit(c, reason, policy, true, next).Some?
    ensures !Has(Fit(c, reason, policy, true, Shrink(Refresh(true, d).value, d).value).value, PATH)
  {
    hide Lookup, Fit, Refresh, Shrink, DistinctMembers, PathOf;
    FittingKeys();
    var members := Refresh(true, d).value;
    var next := Shrink(members, d).value;
    RefreshLookup(true, d, ISSUES);
    SameIssues(members, d.kept);
    ShrinkLookup(members, d, ISSUES);
    var was, now := IssuesIn(members), IssuesIn(next.kept);
    assert now <= was;
    if now != [] { PrefixSummary(was, now); }
    FitTrims(c, reason, policy, true, next, ISSUES);
    FitSettles(c, reason, policy, true, next);
    assert IssuesIn(Fit(c, reason, policy, true, next).value) <= now;
  }

  lemma PrefixSummary(was: seq<Json>, now: seq<Json>)
    requires now <= was && now != []
    ensures Summary(was).Some? ==> Summary(now).Some?
  {
    hide PathOf;
    assert forall i :: 0 <= i < |now| ==> now[i] == was[i];
  }

  // From a turn on at which an omission is counted, the order of the end is settled.
  lemma {:induction false} RunCounters(c: Table, reason: Text, policy: Policy, summarize: bool, d: Draft<Member>)
    requires policy.code in c.catalog && Tidy(summarize, d.kept) && d.omitted > 0
    requires Fit(c, reason, policy, summarize, d).Some?
    ensures Precedes(Fit(c, reason, policy, summarize, d).value, OMITTED_CHARACTERS, OMITTED_DIAGNOSTICS) <==>
            Precedes(d.kept, OMITTED_CHARACTERS, OMITTED_DIAGNOSTICS)
            || (Has(d.kept, OMITTED_CHARACTERS) && !Has(d.kept, OMITTED_DIAGNOSTICS))
    decreases Entries(d.kept), Strings(d.kept)
  {
    hide Refresh, Shrink, Fits, Precedes, Lookup, DistinctMembers;
    FittingKeys();
    var members := Refresh(summarize, d).value;
    FitDecreases(summarize, d);
    TurnCounters(summarize, d);
    if !Fits(c, reason, policy, members) {
      var next := Shrink(members, d).value;
      ShrinkCounts(members, d);
      ShrinkHas(members, d, OMITTED_DIAGNOSTICS);
      ShrinkHas(members, d, OMITTED_CHARACTERS);
      ShrinkPrecedes(members, d, OMITTED_CHARACTERS, OMITTED_DIAGNOSTICS);
      if Precedes(members, OMITTED_CHARACTERS, OMITTED_DIAGNOSTICS) {
        PrecedesHas(members, OMITTED_CHARACTERS, OMITTED_DIAGNOSTICS);
      }
      RunCounters(c, reason, policy, summarize, next);
    }
  }

  lemma {:induction false} RunFields(c: Table, reason: Text, policy: Policy, summarize: bool, d: Draft<Member>, a: Text, k: Text)
    requires policy.code in c.catalog && Tidy(summarize, d.kept) && Fit(c, reason, policy, summarize, d).Some?
    requires IsCounter(a) && !IsCounter(k) && !(summarize && k == PATH)
    ensures Precedes(Fit(c, reason, policy, summarize, d).value, a, k) ==> Precedes(d.kept, a, k)
    decreases Entries(d.kept), Strings(d.kept)
  {
    hide Refresh, Shrink, Fits, Precedes, Lookup, DistinctMembers;
    var members := Refresh(summarize, d).value;
    FitDecreases(summarize, d);
    TurnFields(summarize, d, a, k);
    if !Fits(c, reason, policy, members) {
      ShrinkPrecedes(members, d, a, k);
      RunFields(c, reason, policy, summarize, Shrink(members, d).value, a, k);
    }
  }

  lemma {:induction false} RunPath(c: Table, reason: Text, policy: Policy, d: Draft<Member>)
    requires policy.code in c.catalog && Tidy(true, d.kept) && d.omitted > 0
    requires Fit(c, reason, policy, true, d).Some?
    ensures var out := Fit(c, reason, policy, true, d).value;
            Late(out, PATH) <==> Has(out, PATH) && LatePath(d.kept)
    decreases Entries(d.kept), Strings(d.kept)
  {
    hide Refresh, Shrink, Fits, Precedes, Lookup, DistinctMembers, Summary, IssuesIn;
    FittingKeys();
    var members := Refresh(true, d).value;
    FitDecreases(true, d);
    TurnPath(d);
    if !Fits(c, reason, policy, members) {
      var next := Shrink(members, d).value;
      var out := Fit(c, reason, policy, true, d).value;
      ShrinkCounts(members, d);
      RunPath(c, reason, policy, next);
      TurnCounters(true, d);
      ShrinkHas(members, d, OMITTED_DIAGNOSTICS);
      if SummaryOf(d.kept).Some? {
        ShrinkHas(members, d, PATH);
        ShrinkLate(members, d);
        if SummaryOf(next.kept).None? {
          SummaryGone(c, reason, policy, d);
          if Late(out, PATH) { LateHas(out); }
        }
      } else {
        NoPathLeft(members, d);
      }
    }
  }

  lemma NoPathLeft(members: seq<Member>, d: Draft<Member>)
    requires DistinctMembers(members) && Shrink(members, d).Some? && !Has(members, PATH)
    ensures !Has(Shrink(members, d).value.kept, PATH)
  {
    hide Lookup, Shrink, DistinctMembers;
    ShrinkLookup(members, d, PATH);
  }

  lemma ShrinkLate(members: seq<Member>, d: Draft<Member>)
    requires DistinctMembers(members) && Shrink(members, d).Some?
    requires forall key :: Has(members, key) && IsCounter(key) ==> Lookup(members, key).value.Int?
    requires SummaryOf(members).Some?
    ensures Late(Shrink(members, d).value.kept, PATH) <==> Late(members, PATH)
  {
    hide Shrink, Precedes, Lookup, DistinctMembers, Summary, IssuesIn;
    FittingKeys();
    ShrinkHas(members, d, OMITTED_DIAGNOSTICS);
    ShrinkHas(members, d, OMITTED_CHARACTERS);
    ShrinkHas(members, d, PATH);
    ShrinkPrecedes(members, d, OMITTED_DIAGNOSTICS, PATH);
    ShrinkPrecedes(members, d, OMITTED_CHARACTERS, PATH);
    if Precedes(members, OMITTED_DIAGNOSTICS, PATH) { PrecedesHas(members, OMITTED_DIAGNOSTICS, PATH); }
    if Precedes(members, OMITTED_CHARACTERS, PATH) { PrecedesHas(members, OMITTED_CHARACTERS, PATH); }
  }

  // ---------------------------------------------------------------------------------------------
  // The order at the end, from the draft at the start

  // The draft after its first omission.
  function AfterOne(c: Table, reason: Text, policy: Policy, summarize: bool, d: Draft<Member>): Option<Draft<Member>>
    requires policy.code in c.catalog
  {
    var members :- Refresh(summarize, d);
    if Fits(c, reason, policy, members) then None else Shrink(members, d)
  }

  // The characters are written a turn before the count.
  predicate CharactersFirst(d: Draft<Member>) { d.omitted == 0 && d.characters > 0 }

  // The path is summarised at a turn after one that wrote a counter, and still is at the end.
  predicate PathReturns(d: Draft<Member>, next: Draft<Member>, out: seq<Member>) {
    SummaryOf(d.kept).None? && SummaryOf(out).Some? &&
    (d.omitted > 0 || d.characters > 0 || SummaryOf(next.kept).None?)
  }

  lemma StartRefresh(summarize: bool, d: Draft<Member>)
    requires Tidy(summarize, d.kept) && Refresh(summarize, d).Some? && (forall m :: m in d.kept ==> !IsCounter(m.key))
    ensures var members := Refresh(summarize, d).value;
            && CountersBehind(members) && !Precedes(members, OMITTED_CHARACTERS, OMITTED_DIAGNOSTICS)
            && (Has(members, OMITTED_DIAGNOSTICS) <==> d.omitted > 0) && (Has(members, OMITTED_CHARACTERS) <==> d.characters > 0)
  {
    hide Precedes, Refresh, Summarized, Lookup, DistinctMembers, Summary, IssuesIn;
    FittingKeys();
    var members := Refresh(summarize, d).value;
    LookupAbsent(d.kept, OMITTED_DIAGNOSTICS);
    LookupAbsent(d.kept, OMITTED_CHARACTERS);
    RefreshLookup(summarize, d, PATH);
    SummarizedLookup(summarize, d.kept, OMITTED_DIAGNOSTICS);
    SummarizedLookup(summarize, d.kept, OMITTED_CHARACTERS);
    forall a, k | IsCounter(a) && (!IsCounter(k) || (a == OMITTED_CHARACTERS && k == OMITTED_DIAGNOSTICS))
      ensures !Precedes(members, a, k)
    {
      SummarizedPrecedes(summarize, d.kept, a, k);
      RefreshPrecedes(summarize, d, a, k);
      if Precedes(d.kept, a, k) { PrecedesHas(d.kept, a, k); }
    }
  }

  /** From a draft without counters, fitting ends with count and characters last, in this order, exactly when one turn was
      enough, or neither the characters were written before the count nor the path behind a counter. */
  lemma FitOrderIff(c: Table, reason: Text, policy: Policy, summarize: bool, d: Draft<Member>)
    requires policy.code in c.catalog && Tidy(summarize, d.kept) && (forall m :: m in d.kept ==> !IsCounter(m.key))
    requires Fit(c, reason, policy, summarize, d).Some?
    ensures var out := Fit(c, reason, policy, summarize, d).value;
            CountersLast(out) <==>
            match AfterOne(c, reason, policy, summarize, d)
            case None => true
            case Some(next) => !CharactersFirst(d) && !(summarize && PathReturns(d, next, out))
  {
    hide Refresh, Shrink, Fits, Precedes, Lookup, DistinctMembers, Summary, IssuesIn, CountersLast, CountersBehind;
    var members := Refresh(summarize, d).value;
    var out := Fit(c, reason, policy, summarize, d).value;
    StartRefresh(summarize, d);
    FitDecreases(summarize, d);
    FitSettles(c, reason, policy, summarize, d);
    CountersLastIff(out);
    if !Fits(c, reason, policy, members) {
      NextOrder(c, reason, policy, summarize, d, members, Shrink(members, d).value, out);
    }
  }

  lemma NextOrder(c: Table, reason: Text, policy: Policy, summarize: bool, d: Draft<Member>, members: seq<Member>,
                  next: Draft<Member>, out: seq<Member>)
    requires policy.code in c.catalog && Tidy(summarize, d.kept) && Tidy(summarize, members) && Tidy(summarize, next.kept)
    requires Refresh(summarize, d) == Some(members) && Shrink(members, d) == Some(next)
    requires Fit(c, reason, policy, summarize, next) == Some(out)
    requires CountersBehind(members) && !Precedes(members, OMITTED_CHARACTERS, OMITTED_DIAGNOSTICS)
    requires Has(members, OMITTED_DIAGNOSTICS) <==> d.omitted > 0
    requires Has(members, OMITTED_CHARACTERS) <==> d.characters > 0
    ensures Precedes(out, OMITTED_CHARACTERS, OMITTED_DIAGNOSTICS) <==> CharactersFirst(d)
    ensures CountersBehind(out) <==> !(summarize && PathReturns(d, next, out))
  {
    hide Refresh, Shrink, Fits, Fit, Precedes, Lookup, DistinctMembers, Summary, IssuesIn;
    FittingKeys();
    ShrinkCounts(members, d);
    ShrinkHas(members, d, OMITTED_DIAGNOSTICS);
    ShrinkHas(members, d, OMITTED_CHARACTERS);
    ShrinkPrecedes(members, d, OMITTED_CHARACTERS, OMITTED_DIAGNOSTICS);
    RunCounters(c, reason, policy, summarize, next);
    forall a, k | IsCounter(a) && !IsCounter(k)
      ensures !Precedes(next.kept, a, k)
      ensures !(summarize && k == PATH) ==> !Precedes(out, a, k)
    {
      ShrinkPrecedes(members, d, a, k);
      if !(summarize && k == PATH) { RunFields(c, reason, policy, summarize, next, a, k); }
    }
    if summarize {
      PathOrder(c, reason, policy, d, members, next, out);
      assert CountersBehind(out) <==> !Late(out, PATH);
    }
  }

  lemma PathOrder(c: Table, reason: Text, policy: Policy, d: Draft<Member>, members: seq<Member>, next: Draft<Member>,
                  out: seq<Member>)
    requires policy.code in c.catalog && Tidy(true, d.kept) && Tidy(true, members) && Tidy(true, next.kept)
    requires Refresh(true, d) == Some(members) && Shrink(members, d) == Some(next) && next.omitted > 0
    requires Fit(c, reason, policy, true, next) == Some(out)
    requires Counting(next.kept) <==> d.omitted > 0 || d.characters > 0
    requires !Late(next.kept, PATH)
    ensures Late(out, PATH) <==> PathReturns(d, next, out)
  {
    hide Refresh, Shrink, Fits, Fit, Precedes, Lookup, DistinctMembers, Summary, IssuesIn, Late, Counting;
    FitSettles(c, reason, policy, true, next);
    assert Has(out, PATH) <==> SummaryOf(out).Some?;
    RunPath(c, reason, policy, next);
    TurnPath(d);
    if SummaryOf(d.kept).Some? {
      ShrinkHas(members, d, PATH);
      if SummaryOf(next.kept).None? { SummaryGone(c, reason, policy, d); }
    } else {
      NoPathLeft(members, d);
    }
  }
}

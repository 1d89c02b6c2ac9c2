/** When fitting native diagnostics succeeds: packages/contracts/src/failure.ts, lines 694-714. */
module NativeTurns {
  import opened Options
  import opened JsonText
  import opened JsonFacts
  import opened JsHeap
  import opened PrettyJson
  import opened FailureModel
  import opened FailureEnvelopes
  import opened NativeCollection
  import opened NativeFitting
  import opened NativeConservation
  import opened NativeDiagnostics
  import opened DetailsAccepted

  // ---------------------------------------------------------------------------------------------
  // The turns of the loop if it never stopped at a fit

  /** The draft after n omissions. */
  function Turn(summarize: bool, d: Draft<Member>, n: nat): Option<Draft<Member>> {
    if n == 0 then Some(d)
    else
      var before :- Turn(summarize, d, n - 1);
      var members :- Refresh(summarize, before);
      Shrink(members, before)
  }

  // The record shown at turn n, with its path and counters.
  function Shown(summarize: bool, d: Draft<Member>, n: nat): Option<seq<Member>> {
    var t :- Turn(summarize, d, n);
    Refresh(summarize, t)
  }

  predicate FitsAt(c: Table, reason: Text, policy: Policy, summarize: bool, d: Draft<Member>, n: nat)
    requires policy.code in c.catalog
  {
    match Shown(summarize, d, n)
    case None => false
    case Some(members) =>
      Size(Obj(members)) <= DETAILS_LIMIT &&
      PrintedSize(EnvelopeJson(Envelope(EXPORT_ID, NativeFailure(c, reason, policy, members)))) <= DETAILS_LIMIT
  }

  lemma {:induction false} TurnAfter(summarize: bool, d: Draft<Member>, next: Draft<Member>, n: nat)
    requires Refresh(summarize, d).Some? && Shrink(Refresh(summarize, d).value, d) == Some(next)
    ensures Turn(summarize, d, n + 1) == Turn(summarize, next, n)
  {
    hide Refresh, Shrink;
    if n > 0 {
      TurnAfter(summarize, d, next, n - 1);
    } else {
      assert Turn(summarize, d, 0) == Some(d);
    }
  }

  lemma {:induction false} NoTurnAfter(summarize: bool, d: Draft<Member>, n: nat)
    requires Refresh(summarize, d).None? || Shrink(Refresh(summarize, d).value, d).None?
    ensures Turn(summarize, d, n + 1).None?
  {
    hide Refresh, Shrink;
    if n > 0 {
      NoTurnAfter(summarize, d, n - 1);
    } else {
      assert Turn(summarize, d, 0) == Some(d);
    }
  }

  // Turn n is the first that fits.
  predicate FirstFit(c: Table, reason: Text, policy: Policy, summarize: bool, d: Draft<Member>, n: nat)
    requires policy.code in c.catalog
  {
    FitsAt(c, reason, policy, summarize, d, n) && forall k: nat :: k < n ==> !FitsAt(c, reason, policy, summarize, d, k)
  }

  lemma FirstShift(c: Table, reason: Text, policy: Policy, summarize: bool, d: Draft<Member>, next: Draft<Member>)
    requires policy.code in c.catalog && !FitsAt(c, reason, policy, summarize, d, 0)
    requires Refresh(summarize, d).Some? && Shrink(Refresh(summarize, d).value, d) == Some(next)
    ensures forall n: nat :: Shown(summarize, d, n + 1) == Shown(summarize, next, n)
    ensures forall n: nat :: FitsAt(c, reason, policy, summarize, d, n + 1) == FitsAt(c, reason, policy, summarize, next, n)
    ensures forall n: nat :: FirstFit(c, reason, policy, summarize, next, n) ==> FirstFit(c, reason, policy, summarize, d, n + 1)
  {
    hide Refresh, Shrink, Turn, Size, PrintedSize, EnvelopeJson;
    forall n: nat
      ensures Shown(summarize, d, n + 1) == Shown(summarize, next, n)
      ensures FitsAt(c, reason, policy, summarize, d, n + 1) == FitsAt(c, reason, policy, summarize, next, n)
    {
      TurnAfter(summarize, d, next, n);
    }
    hide FitsAt;
    forall n: nat | FirstFit(c, reason, policy, summarize, next, n) ensures FirstFit(c, reason, policy, summarize, d, n + 1) {
      forall k: nat | k < n + 1 ensures !FitsAt(c, reason, policy, summarize, d, k) {
        if k > 0 { assert !FitsAt(c, reason, policy, summarize, next, k - 1); }
      }
    }
  }

  /** Fitting returns the record of the first turn that fits, and fails exactly when none does. */
  lemma {:induction false} FitIsFirst(c: Table, reason: Text, policy: Policy, summarize: bool, d: Draft<Member>)
    requires policy.code in c.catalog && Tidy(summarize, d.kept)
    ensures match Fit(c, reason, policy, summarize, d)
            case Some(out) =>
              exists n: nat :: FirstFit(c, reason, policy, summarize, d, n) && Shown(summarize, d, n) == Some(out)
            case None => forall n: nat :: !FitsAt(c, reason, policy, summarize, d, n)
    decreases Entries(d.kept), Strings(d.kept)
  {
    hide Refresh, Shrink, Size, PrintedSize, EnvelopeJson, Tidy, Fits, FirstFit, FitsAt, Shown;
    StartFits(c, reason, policy, summarize, d);
    if Refresh(summarize, d).None? {
      NoneAfter(c, reason, policy, summarize, d);
    } else {
      var members := Refresh(summarize, d).value;
      FitDecreases(summarize, d);
      if Fits(c, reason, policy, members) {
        assert FirstFit(c, reason, policy, summarize, d, 0);
      } else if Shrink(members, d).None? {
        NoneAfter(c, reason, policy, summarize, d);
      } else {
        var next := Shrink(members, d).value;
        FirstShift(c, reason, policy, summarize, d, next);
        FitIsFirst(c, reason, policy, summarize, next);
        if Fit(c, reason, policy, summarize, next).Some? {
          var n: nat :| FirstFit(c, reason, policy, summarize, next, n)
                        && Shown(summarize, next, n) == Fit(c, reason, policy, summarize, next);
          assert FirstFit(c, reason, policy, summarize, d, n + 1) && Shown(summarize, d, n + 1) == Shown(summarize, next, n);
        } else {
          forall n: nat ensures !FitsAt(c, reason, policy, summarize, d, n) {
            if n > 0 { assert !FitsAt(c, reason, policy, summarize, next, n - 1); }
          }
        }
      }
    }
  }

  lemma StartFits(c: Table, reason: Text, policy: Policy, summarize: bool, d: Draft<Member>)
    requires policy.code in c.catalog
    ensures Shown(summarize, d, 0) == Refresh(summarize, d)
    ensures FitsAt(c, reason, policy, summarize, d, 0)
            <==> Refresh(summarize, d).Some? && Fits(c, reason, policy, Refresh(summarize, d).value)
    ensures FirstFit(c, reason, policy, summarize, d, 0) <==> FitsAt(c, reason, policy, summarize, d, 0)
  {
    hide Refresh, Shrink, Size, PrintedSize, EnvelopeJson;
  }

  lemma NoneAfter(c: Table, reason: Text, policy: Policy, summarize: bool, d: Draft<Member>)
    requires policy.code in c.catalog && !FitsAt(c, reason, policy, summarize, d, 0)
    requires Refresh(summarize, d).None? || Shrink(Refresh(summarize, d).value, d).None?
    ensures forall n: nat :: !FitsAt(c, reason, policy, summarize, d, n)
  {
    hide Refresh, Shrink, Size, PrintedSize, EnvelopeJson, Turn;
    forall n: nat ensures !FitsAt(c, reason, policy, summarize, d, n) {
      if n > 0 { NoTurnAfter(summarize, d, n - 1); }
    }
  }

  // ---------------------------------------------------------------------------------------------
  // When the turns end

  lemma SumAtLeast<T>(s: seq<T>, i: nat, f: T -> nat)
    requires i < |s|
    ensures Sum(s, f) >= f(s[i])
  {
    WithoutOne(s, i, f);
  }

  lemma {:induction false} NoTextNoStrings(members: seq<Member>)
    requires forall i :: 0 <= i < |members| ==> !members[i].value.Str?
    ensures Strings(members) == 0
  {
    if members != [] {
      NoTextNoStrings(members[1..]);
    }
  }

  lemma ShrinkEnds(members: seq<Member>, d: Draft<Member>)
    ensures Shrink(members, d).None? <==> Entries(members) == 0 && Strings(members) == 0
  {
    hide Sum, LastList, LastText;
    match LastList(members) {
      case Some(i) => SumAtLeast(members, i, EntryWeight);
      case None =>
        NoListNoEntries(members);
        match LastText(members) {
          case Some(i) => SumAtLeast(members, i, TextWeight);
          case None => NoTextNoStrings(members);
        }
    }
  }

  /** There is a next turn unless a counter is no safe integer, or no list entry and no string is left; each turn counts one. */
  lemma TurnsEnd(summarize: bool, d: Draft<Member>, n: nat)
    requires Turn(summarize, d, n).Some?
    ensures var t := Turn(summarize, d, n).value;
            && (Shown(summarize, d, n).None? <==> t.omitted > MAX_SAFE_INTEGER || t.characters > MAX_SAFE_INTEGER)
            && (Turn(summarize, d, n + 1).None? <==>
                Shown(summarize, d, n).None? ||
                (Entries(Shown(summarize, d, n).value) == 0 && Strings(Shown(summarize, d, n).value) == 0))
            && t.omitted == d.omitted + n
  {
    var t := Turn(summarize, d, n).value;
    if Refresh(summarize, t).Some? { ShrinkEnds(Refresh(summarize, t).value, t); }
    TurnCount(summarize, d, n);
  }

  lemma {:induction false} TurnCount(summarize: bool, d: Draft<Member>, n: nat)
    requires Turn(summarize, d, n).Some?
    ensures Turn(summarize, d, n).value.omitted == d.omitted + n
  {
    hide Refresh, Shrink;
    if n > 0 {
      TurnCount(summarize, d, n - 1);
      var before := Turn(summarize, d, n - 1).value;
      ShrinkCounts(Refresh(summarize, before).value, before);
    }
  }

  // ---------------------------------------------------------------------------------------------
  // Native details as a whole

  // The issue is a record whose path is that text.
  predicate HasPath(issue: Json, path: Text) { issue.Obj? && Lookup(issue.members, PATH) == Some(Str(path)) }

  // The issues under the key issues, if there is a list.
  function IssueList(members: seq<Member>): seq<Json> {
    match Lookup(members, ISSUES)
    case Some(Arr(items)) => items
    case _ => []
  }

  /** The path is summarized when some issue has one, and the summary is the one path all issues have. */
  lemma SummaryIff(issues: seq<Json>, path: Text)
    ensures Summarizes(issues) <==> exists i, p :: 0 <= i < |issues| && HasPath(issues[i], p)
    ensures Summary(issues) == Some(path) <==> issues != [] && forall i :: 0 <= i < |issues| ==> HasPath(issues[i], path)
  {
    hide Lookup;
    forall i | 0 <= i < |issues| ensures PathOf(issues[i]).Some? ==> HasPath(issues[i], PathOf(issues[i]).value) {}
    forall i, p | 0 <= i < |issues| && HasPath(issues[i], p) ensures PathOf(issues[i]) == Some(p) {}
    assert issues != [] ==> PathOf(issues[0]) == PathOf(issues[0]);
  }

  /** Native details are taken exactly when every field is supported and some turn fits. */
  lemma NativeIff(c: Table, reason: Text, policy: Policy, h: Heap, input: Value)
    requires NativePolicy(c, policy)
    ensures NativeDetails(c, reason, policy, h, input).Some? <==>
            && IsRecord(h, input) && PlainRecord(h[input.id]) && |h[input.id].props| <= 16
            && (forall i :: 0 <= i < |h[input.id].props| ==> NativeSupported(c, policy.kind.rules, h, h[input.id].props[i]))
            && var d := NativeFold(c, policy.kind.rules, h, h[input.id].props);
               d.Some? && exists n: nat :: FitsAt(c, reason, policy, Summarizes(IssuesIn(d.value.kept)), d.value, n)
  {
    hide NativeFold, NativeSupported, FitsAt, Fit, Summarizes, IssuesIn, Shown, PathRule, PlainRecord, DraftForm, Tidy;
    if IsDataRecord(h, input) {
      NativeFoldIff(c, policy.kind.rules, h, h[input.id].props);
      if NativeFold(c, policy.kind.rules, h, h[input.id].props).Some? {
        var d := NativeFold(c, policy.kind.rules, h, h[input.id].props).value;
        CollectedForm(c, policy.kind.rules, h, input);
        DraftTidy(policy.kind.rules, d.kept);
        FitIsFirst(c, reason, policy, Summarizes(IssuesIn(d.kept)), d);
      }
    }
  }

  /** When a collected issue has a path, the details have a path exactly when every issue left has it. */
  lemma PathIff(c: Table, reason: Text, policy: Policy, h: Heap, input: Value, path: Text)
    requires NativePolicy(c, policy) && NativeDetails(c, reason, policy, h, input).Some?
    requires var d := NativeFold(c, policy.kind.rules, h, h[input.id].props).value;
             exists i, p :: 0 <= i < |IssueList(d.kept)| && HasPath(IssueList(d.kept)[i], p)
    ensures var out := NativeDetails(c, reason, policy, h, input).value.members;
            Lookup(out, PATH) == Some(Str(path)) <==>
            IssueList(out) != [] && forall i :: 0 <= i < |IssueList(out)| ==> HasPath(IssueList(out)[i], path)
  {
    hide NativeFold, Fit, Lookup, PathRule, DraftForm, Summary, Summarizes, HasPath, Fits, Tidy;
    var d := NativeFold(c, policy.kind.rules, h, h[input.id].props).value;
    CollectedForm(c, policy.kind.rules, h, input);
    DraftTidy(policy.kind.rules, d.kept);
    assert IssuesIn(d.kept) == IssueList(d.kept);
    SummaryIff(IssuesIn(d.kept), path);
    FitSettles(c, reason, policy, Summarizes(IssuesIn(d.kept)), d);
    var out := NativeDetails(c, reason, policy, h, input).value.members;
    assert IssuesIn(out) == IssueList(out);
    SummaryIff(IssuesIn(out), path);
  }
}

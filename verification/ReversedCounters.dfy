/** Native details whose characters were counted before their omissions: packages/contracts/src/failure.ts, lines 689-714. */
module ReversedCounters {
  import opened Options
  import opened JsonText
  import opened JsonFacts
  import opened JsHeap
  import opened JsAllocation
  import opened PrettyJson
  import opened FailureModel
  import opened FailureEnvelopes
  import opened NativeCollection
  import opened NativeFitting
  import opened NativeDiagnostics
  import opened NativeFixedPoint
  import opened DetailsBudget
  import opened PathBehindCounters

  // ---------------------------------------------------------------------------------------------
  // Two issues, characters counted before but no omission, and room for one issue only

  function BothIssues(x: Json, y: Json, n: SafeInt): seq<Member> {
    [Member(ISSUES, Arr([x, y])), Member(OMITTED_CHARACTERS, Int(n))]
  }

  // What is left: the count stands behind the characters.
  function FirstIssue(x: Json, n: SafeInt): seq<Member> {
    [Member(ISSUES, Arr([x])), Member(OMITTED_CHARACTERS, Int(n)), Member(OMITTED_DIAGNOSTICS, Int(1))]
  }

  lemma FirstIssueOrder(x: Json, n: SafeInt)
    ensures !CountersLast(FirstIssue(x, n))
  {
    FittingKeys();
    var out := FirstIssue(x, n);
    assert IsCounter(out[1].key) && out[1].key == OMITTED_CHARACTERS && out[2].key == OMITTED_DIAGNOSTICS;
  }

  lemma CharactersWritten(x: Json, y: Json, n: SafeInt)
    requires n > 0
    ensures Refresh(false, Draft([Member(ISSUES, Arr([x, y]))], 0, n)) == Some(BothIssues(x, y, n))
  {
    FittingKeys();
    var kept := [Member(ISSUES, Arr([x, y]))];
    LookupAbsent(kept, OMITTED_CHARACTERS);
    PutNew(kept, OMITTED_CHARACTERS, Int(n));
    assert kept + [Member(OMITTED_CHARACTERS, Int(n))] == BothIssues(x, y, n);
  }

  lemma OneDropped(x: Json, y: Json, n: SafeInt)
    requires n > 0
    ensures Shrink(BothIssues(x, y, n), Draft([Member(ISSUES, Arr([x, y]))], 0, n))
            == Some(Draft([Member(ISSUES, Arr([x])), Member(OMITTED_CHARACTERS, Int(n))], 1, n + Letters(y)))
  {
    hide Letters;
    var members := BothIssues(x, y, n);
    assert members[..1] == [members[0]] && LastList(members) == LastList(members[..1]) == Some(0);
    assert [x, y][..1] == [x];
    assert members[0 := Member(ISSUES, Arr([x]))] == [Member(ISSUES, Arr([x])), Member(OMITTED_CHARACTERS, Int(n))];
  }

  lemma CountWritten(x: Json, n: SafeInt, total: SafeInt)
    requires 0 < n <= total
    ensures Refresh(false, Draft([Member(ISSUES, Arr([x])), Member(OMITTED_CHARACTERS, Int(n))], 1, total)) == Some(FirstIssue(x, total))
  {
    FittingKeys();
    var issues, characters, count := Member(ISSUES, Arr([x])), Member(OMITTED_CHARACTERS, Int(n)), Member(OMITTED_DIAGNOSTICS, Int(1));
    var kept := [issues, characters];
    LookupAbsent(kept, OMITTED_DIAGNOSTICS);
    PutNew(kept, OMITTED_DIAGNOSTICS, Int(1));
    var a := [issues, characters, count];
    assert kept + [count] == a;
    assert a[1..][0] == characters && a[1..][1..] == [count];
    assert Put(a[1..], OMITTED_CHARACTERS, Int(total)) == [Member(OMITTED_CHARACTERS, Int(total))] + a[1..][1..];
    assert Put(a, OMITTED_CHARACTERS, Int(total)) == FirstIssue(x, total);
  }

  lemma BothTidy(x: Json, y: Json, n: SafeInt)
    ensures Tidy(false, [Member(ISSUES, Arr([x, y]))])
    ensures Tidy(false, [Member(ISSUES, Arr([x])), Member(OMITTED_CHARACTERS, Int(n))])
  {
    FittingKeys();
    hide Lookup;
    var a, b := [Member(ISSUES, Arr([x, y]))], [Member(ISSUES, Arr([x])), Member(OMITTED_CHARACTERS, Int(n))];
    LookupAbsent(a, OMITTED_DIAGNOSTICS);
    LookupAbsent(a, OMITTED_CHARACTERS);
    LookupAt(b, 1);
    LookupAbsent(b, OMITTED_DIAGNOSTICS);
  }

  /** If both issues are too much and the first alone is not, fitting ends with the count behind the characters, and no path. */
  lemma CountComesLater(c: Table, reason: Text, policy: Policy, x: Json, y: Json, n: SafeInt)
    requires policy.code in c.catalog && 0 < n && n + Letters(y) <= MAX_SAFE_INTEGER
    requires !Fits(c, reason, policy, BothIssues(x, y, n)) && Fits(c, reason, policy, FirstIssue(x, n + Letters(y)))
    ensures var start := Draft([Member(ISSUES, Arr([x, y]))], 0, n);
            Tidy(false, start.kept) && Fit(c, reason, policy, false, start) == Some(FirstIssue(x, n + Letters(y)))
  {
    hide Letters, Fits, Refresh, Shrink;
    var start := Draft([Member(ISSUES, Arr([x, y]))], 0, n);
    CharactersWritten(x, y, n);
    OneDropped(x, y, n);
    CountWritten(x, n, n + Letters(y));
    BothTidy(x, y, n);
    FitDecreases(false, start);
  }

  // ---------------------------------------------------------------------------------------------
  // Two such issues, without a path

  const BARE: Json :=
    Obj([Member(ENTITY_ID, Str(Controls(WIDE))), Member(FIELD, Str(Controls(WIDE))), Member(INVARIANT, Str(Controls(WIDE)))])

  const COUNTED: SafeInt := 5
  const BARE_LETTERS: SafeInt := COUNTED + 3 * WIDE

  lemma BareForm()
    ensures IssueForm(BARE) && PathOf(BARE).None? && InBudget(BARE, 2, SHORT)
  {
    hide Bytes, Controls;
    KeyLengths();
    AsciiBytes(Controls(WIDE));
    var m := BARE.members;
    LookupAt(m, 0);
    LookupAt(m, 1);
    LookupAt(m, 2);
    LookupAbsent(m, PATH);
  }

  lemma BareLetters()
    ensures Letters(BARE) == 3 * WIDE
  {
    hide Controls;
    var m := BARE.members;
    assert m[1..][1..] == m[2..] && m[2..][1..] == [];
    assert LettersIn(m[2..]) == Letters(m[2].value) + LettersIn([]);
    assert LettersIn(m[1..]) == Letters(m[1].value) + LettersIn(m[2..]);
  }

  lemma BareSizes()
    ensures 18 * WIDE <= Size(BARE) <= 4950 && PrettySize(BARE, 8) <= 5000
  {
    hide Size, PrettySize, Controls, ScalarBounds, EntrySize, Bytes;
    KeyLengths();
    var m := BARE.members;
    HeavyFields(m);
    SizeIsSum(BARE);
    Scalars3(m);
    CompactScalars(m, m[0]);
    PrettyIsSum(m, 8);
    PrettyScalars(m, 10);
  }

  lemma BothTooLarge(c: Table, reason: Text, policy: Policy)
    requires policy.code in c.catalog
    ensures !Fits(c, reason, policy, BothIssues(BARE, BARE, COUNTED))
  {
    hide Size, PrintedSize, BARE;
    BareSizes();
    TwoAreTooMany(BARE, BARE, Member(OMITTED_CHARACTERS, Int(COUNTED)));
  }

  lemma FirstIssueBounds(x: Json, n: SafeInt)
    requires Size(x) <= 4950 && PrettySize(x, 8) <= 5000
    ensures Size(Obj(FirstIssue(x, n))) <= 5400 && PrettySize(Obj(FirstIssue(x, n)), 4) <= 5500
  {
    hide Size, EntrySize, PrettySize, PrettyEntrySize, MembersSize, PrettyLines;
    IssuesPart(x);
    SmallParts([], n);
    CountPart();
    FirstIssueSizes(FirstIssue(x, n));
  }

  lemma FirstIssueSizes(m: seq<Member>)
    requires |m| == 3 && IsScalar(m[1].value) && IsScalar(m[2].value)
    requires EntrySize(m[0]) <= 4991 && PrettyEntrySize(m[0], 6) <= 5064 && EntrySize(m[1]) <= 184 && EntrySize(m[2]) <= 154
    ensures Size(Obj(m)) <= 5400 && PrettySize(Obj(m), 4) <= 5500
  {
    hide Size, EntrySize, PrettySize, Bytes, PrettyEntrySize, MembersSize, PrettyLines;
    EntryParts(m[1]);
    EntryParts(m[2]);
    ThreeEntries(m);
    SizeIsSum(Obj(m));
    ThreeLines(m, 6);
    PrettyIsSum(m, 4);
  }

  lemma CountPart()
    ensures EntrySize(Member(OMITTED_DIAGNOSTICS, Int(1))) <= 154
  {
    KeyLengths();
    hide EntrySize;
    EntryBound(Member(OMITTED_DIAGNOSTICS, Int(1)));
  }

  lemma ThreeEntries(m: seq<Member>)
    requires |m| == 3
    ensures MembersSize(m) == EntrySize(m[0]) + EntrySize(m[1]) + EntrySize(m[2]) + 2
  {
    hide EntrySize;
    MembersSizeAppend(m[..0], m[0]);
    MembersSizeAppend(m[..1], m[1]);
    MembersSizeAppend(m[..2], m[2]);
    assert m[..1] == m[..0] + [m[0]] && m[..2] == m[..1] + [m[1]] && m == m[..2] + [m[2]];
  }

  lemma ThreeLines(m: seq<Member>, d: nat)
    requires |m| == 3
    ensures PrettyLines(m, d) == PrettyEntrySize(m[0], d) + PrettyEntrySize(m[1], d) + PrettyEntrySize(m[2], d) + 6
  {
    hide PrettyEntrySize;
    assert m[1..][1..] == m[2..] && m[2..][1..] == [];
    assert PrettyLines(m[2..], d) == PrettyEntrySize(m[2], d) + 2 + PrettyLines([], d);
    assert PrettyLines(m[1..], d) == PrettyEntrySize(m[1], d) + 2 + PrettyLines(m[2..], d);
  }

  lemma FirstIssueFits(c: Table, reason: Text, policy: Policy)
    requires ShortHead(c, reason, policy)
    ensures Fits(c, reason, policy, FirstIssue(BARE, BARE_LETTERS))
  {
    hide Size, PrettySize, PrintedSize, BARE, ScalarBounds, EnvelopeJson;
    BareSizes();
    FirstIssueBounds(BARE, BARE_LETTERS);
    var f := NativeFailure(c, reason, policy, FirstIssue(BARE, BARE_LETTERS));
    assert FailureHead(f) == FailureHead(NativeFailure(c, reason, policy, []));
    EnvelopeBounds(f);
  }

  lemma BothForm(rules: map<Text, NativeRule>)
    requires ISSUES in rules && rules[ISSUES].Issues?
    ensures forall m :: m in BothIssues(BARE, BARE, COUNTED) ==> if IsCounter(m.key) then m.value.Int? && m.value.value > 0 else FieldForm(rules, m)
  {
    hide BARE, IssueForm;
    FittingKeys();
    BareForm();
  }

  lemma CountedOnly(x: Json, y: Json, n: SafeInt)
    requires n > 0
    ensures DraftOf(BothIssues(x, y, n)) == Draft([Member(ISSUES, Arr([x, y]))], 0, n)
  {
    FittingKeys();
    var m := BothIssues(x, y, n);
    assert m[..1] == [m[0]] && m[..1][..0] == [];
    DraftOfStep(m);
    DraftOfStep(m[..1]);
    assert [] + [m[0]] == [m[0]];
  }

  lemma NoPaths(x: Json)
    requires PathOf(x).None?
    ensures !Summarizes(IssuesIn([Member(ISSUES, Arr([x, x]))]))
  {
    hide PathOf;
    assert IssuesIn([Member(ISSUES, Arr([x, x]))]) == [x, x];
  }

  /** Given two such issues and counted characters alone, the details end with the characters before the count. */
  lemma CharactersComeFirst(c: Table, reason: Text, policy: Policy, h: Heap, v: Value)
    requires IssuePolicy(c, policy) && ShortHead(c, reason, policy) && Denotes(h, v, Obj(BothIssues(BARE, BARE, COUNTED)))
    ensures NativeDetails(c, reason, policy, h, v) == Some(Obj(FirstIssue(BARE, BARE_LETTERS)))
    ensures !CountersLast(FirstIssue(BARE, BARE_LETTERS))
  {
    hide NativeFold, BARE, Fit, Tidy, ShortHead, PathOf, Letters, Fits, Denotes, FieldForm;
    var members := BothIssues(BARE, BARE, COUNTED);
    BothForm(policy.kind.rules);
    PlainTwo(h, v, members);
    FoldAgain(c, policy.kind.rules, h, h[v.id].props, members);
    CountedOnly(BARE, BARE, COUNTED);
    BareForm();
    BareLetters();
    BothTooLarge(c, reason, policy);
    FirstIssueFits(c, reason, policy);
    CountComesLater(c, reason, policy, BARE, BARE, COUNTED);
    NoPaths(BARE);
    FirstIssueOrder(BARE, BARE_LETTERS);
  }

  lemma FirstIssueInBudget()
    ensures InBudget(Obj(FirstIssue(BARE, BARE_LETTERS)), 0, SHORT) && Size(Obj(FirstIssue(BARE, BARE_LETTERS))) <= DETAILS_LIMIT
  {
    hide Size, PrettySize, BARE, Bytes;
    BareForm();
    BareSizes();
    FirstIssueBounds(BARE, BARE_LETTERS);
    ListInBudget(BARE);
    var m := FirstIssue(BARE, BARE_LETTERS);
    forall i | 0 <= i < 3 ensures InBudget(m[i].value, 1, SHORT) {}
  }

  lemma ListInBudget(x: Json)
    requires InBudget(x, 2, SHORT)
    ensures InBudget(Arr([x]), 1, SHORT)
  {}

  lemma BothIssuesStorable()
    ensures Storable(Obj(BothIssues(BARE, BARE, COUNTED)))
  {
    BareStorable();
    ListStorable(BARE);
    KeyLengths();
    hide BARE;
    var m := BothIssues(BARE, BARE, COUNTED);
    forall i | 0 <= i < 2 ensures Storable(m[i].value) {}
  }

  lemma BareStorable()
    ensures Storable(BARE)
  {
    KeyLengths();
    hide Controls;
  }

  lemma ListStorable(x: Json)
    requires Storable(x)
    ensures Storable(Arr([x, x]))
  {}
}

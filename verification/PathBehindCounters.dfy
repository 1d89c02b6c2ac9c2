/** Native details whose path is summarised again after a counter was written: packages/contracts/src/failure.ts, lines 694-714. */
module PathBehindCounters {
  import opened Options
  import opened JsonText
  import opened JsonFacts
  import opened JsHeap
  import opened JsAllocation
  import opened PrettyJson
  import opened FailureModel
  import opened FailureEnvelopes
  import opened NativeCollection
  import opened NativeFitting
  import opened NativeDiagnostics
  import opened NativeFixedPoint
  import opened DetailsBudget

  // ---------------------------------------------------------------------------------------------
  // Two issues with different paths, one omission counted before, and room for one issue only

  function TwoIssues(x: Json, y: Json): seq<Member> { [Member(ISSUES, Arr([x, y])), Member(OMITTED_DIAGNOSTICS, Int(1))] }

  // What is left: the path of the first issue stands behind the count of omissions.
  function OneIssue(x: Json, path: Text, letters: SafeInt): seq<Member> {
    [Member(ISSUES, Arr([x])), Member(OMITTED_DIAGNOSTICS, Int(2)), Member(PATH, Str(path)), Member(OMITTED_CHARACTERS, Int(letters))]
  }

  lemma OneIssueOrder(x: Json, path: Text, letters: SafeInt)
    ensures !CountersLast(OneIssue(x, path, letters))
  {
    FittingKeys();
    var out := OneIssue(x, path, letters);
    assert IsCounter(out[1].key) && out[2].key == PATH;
  }

  lemma KeyLengths()
    ensures |ENTITY_ID| == 8 && |FIELD| == 5 && |INVARIANT| == 9 && |PATH| == 4 && |ISSUES| == 6
    ensures |OMITTED_DIAGNOSTICS| == 22 && |OMITTED_CHARACTERS| == 27
  {}

  lemma FirstTurn(x: Json, y: Json)
    requires PathOf(x) != PathOf(y)
    ensures Refresh(true, Draft([Member(ISSUES, Arr([x, y]))], 1, 0)) == Some(TwoIssues(x, y))
  {
    hide PathOf;
    FittingKeys();
    var kept := [Member(ISSUES, Arr([x, y]))];
    assert IssuesIn(kept) == [x, y] && Summary([x, y]).None? by { assert [x, y][0] == x && [x, y][1] == y; }
    LookupAbsent(kept, PATH);
    WithoutSame(kept, PATH);
    LookupAbsent(kept, OMITTED_DIAGNOSTICS);
    PutNew(kept, OMITTED_DIAGNOSTICS, Int(1));
    assert kept + [Member(OMITTED_DIAGNOSTICS, Int(1))] == TwoIssues(x, y);
  }

  lemma LastIssueDropped(x: Json, y: Json)
    ensures var d := Draft([Member(ISSUES, Arr([x, y]))], 1, 0);
            Shrink(TwoIssues(x, y), d)
            == Some(Draft([Member(ISSUES, Arr([x])), Member(OMITTED_DIAGNOSTICS, Int(1))], 2, Letters(y)))
  {
    hide Letters;
    var members := TwoIssues(x, y);
    assert members[..1] == [members[0]] && LastList(members) == LastList(members[..1]) == Some(0);
    assert [x, y][..1] == [x];
    assert members[0 := Member(ISSUES, Arr([x]))] == [Member(ISSUES, Arr([x])), Member(OMITTED_DIAGNOSTICS, Int(1))];
  }

  lemma SecondTurn(x: Json, path: Text, letters: SafeInt)
    requires PathOf(x) == Some(path) && letters > 0
    ensures Refresh(true, Draft([Member(ISSUES, Arr([x])), Member(OMITTED_DIAGNOSTICS, Int(1))], 2, letters))
            == Some(OneIssue(x, path, letters))
  {
    hide PathOf;
    FittingKeys();
    var issues, counter := Member(ISSUES, Arr([x])), Member(OMITTED_DIAGNOSTICS, Int(1));
    var kept := [issues, counter];
    assert IssuesIn(kept) == [x] && Summary([x]) == Some(path);
    LookupAbsent(kept, PATH);
    PutNew(kept, PATH, Str(path));
    var a := [issues, counter, Member(PATH, Str(path))];
    assert kept + [Member(PATH, Str(path))] == a;
    var b := [issues, Member(OMITTED_DIAGNOSTICS, Int(2)), Member(PATH, Str(path))];
    assert a[1..][0] == counter && a[1..][1..] == [Member(PATH, Str(path))];
    assert Put(a[1..], OMITTED_DIAGNOSTICS, Int(2)) == [Member(OMITTED_DIAGNOSTICS, Int(2))] + a[1..][1..];
    assert Put(a, OMITTED_DIAGNOSTICS, Int(2)) == b;
    LookupAbsent(b, OMITTED_CHARACTERS);
    PutNew(b, OMITTED_CHARACTERS, Int(letters));
    assert b + [Member(OMITTED_CHARACTERS, Int(letters))] == OneIssue(x, path, letters);
  }

  /** If both issues are too much and the first alone is not, fitting ends with the path behind a counter. */
  lemma FitsInTwoTurns(c: Table, reason: Text, policy: Policy, x: Json, y: Json, path: Text)
    requires policy.code in c.catalog && PathOf(x) == Some(path) && PathOf(y) != Some(path)
    requires 0 < Letters(y) <= MAX_SAFE_INTEGER
    requires !Fits(c, reason, policy, TwoIssues(x, y)) && Fits(c, reason, policy, OneIssue(x, path, Letters(y)))
    ensures var start := Draft([Member(ISSUES, Arr([x, y]))], 1, 0);
            Tidy(true, start.kept) && Fit(c, reason, policy, true, start) == Some(OneIssue(x, path, Letters(y)))
  {
    hide PathOf, Letters, Fits, Refresh, Shrink;
    FittingKeys();
    var start := Draft([Member(ISSUES, Arr([x, y]))], 1, 0);
    FirstTurn(x, y);
    LastIssueDropped(x, y);
    SecondTurn(x, path, Letters(y));
    StartTidy(x, y);
    FitDecreases(true, start);
  }

  lemma StartTidy(x: Json, y: Json)
    ensures Tidy(true, [Member(ISSUES, Arr([x, y]))])
    ensures Tidy(true, [Member(ISSUES, Arr([x])), Member(OMITTED_DIAGNOSTICS, Int(1))])
  {
    FittingKeys();
    hide Lookup;
    var a, b := [Member(ISSUES, Arr([x, y]))], [Member(ISSUES, Arr([x])), Member(OMITTED_DIAGNOSTICS, Int(1))];
    LookupAbsent(a, PATH);
    LookupAbsent(a, OMITTED_DIAGNOSTICS);
    LookupAbsent(a, OMITTED_CHARACTERS);
    LookupAbsent(b, PATH);
    LookupAt(b, 1);
    LookupAbsent(b, OMITTED_CHARACTERS);
  }

  // ---------------------------------------------------------------------------------------------
  // Two such issues

  const WIDE := 256

  // A text of control characters: one byte each in UTF-8, six in JSON.
  function Controls(n: nat): (t: Text)
    ensures |t| == n && forall i :: 0 <= i < n ==> t[i] == 1
  {
    seq(n, _ => 1)
  }

  function IssueAt(path: Text): Json {
    Obj([Member(ENTITY_ID, Str(Controls(WIDE))), Member(FIELD, Str(Controls(WIDE))), Member(INVARIANT, Str(Controls(WIDE))),
         Member(PATH, Str(path))])
  }

  lemma IssueAtForm(path: Text)
    requires Bytes(path) <= SHORT
    ensures IssueForm(IssueAt(path)) && PathOf(IssueAt(path)) == Some(path)
  {
    hide Bytes, Controls;
    KeyLengths();
    AsciiBytes(Controls(WIDE));
    var m := IssueAt(path).members;
    LookupAt(m, 0);
    LookupAt(m, 1);
    LookupAt(m, 2);
    LookupAt(m, 3);
  }

  lemma IssueAtLetters(path: Text)
    ensures Letters(IssueAt(path)) == 3 * WIDE + |path|
  {
    hide Controls;
    FourLetters(IssueAt(path).members);
  }

  lemma FourLetters(m: seq<Member>)
    requires |m| == 4
    ensures LettersIn(m) == Letters(m[0].value) + Letters(m[1].value) + Letters(m[2].value) + Letters(m[3].value)
  {
    hide Letters;
    assert m[1..][1..] == m[2..] && m[2..][1..] == m[3..] && m[3..][1..] == [];
    assert LettersIn(m[3..]) == Letters(m[3].value) + LettersIn([]);
    assert LettersIn(m[2..]) == Letters(m[2].value) + LettersIn(m[3..]);
    assert LettersIn(m[1..]) == Letters(m[1].value) + LettersIn(m[2..]);
  }

  // ---------------------------------------------------------------------------------------------
  // Their sizes: two are over 8192 bytes, one is not

  lemma {:induction false} ControlsEscaped(t: Text)
    requires forall i :: 0 <= i < |t| ==> t[i] == 1
    ensures |Escaped(t)| == 6 * |t|
  {
    if t != [] {
      assert Piece(t) == HexEscape(1) && Rest(t) == t[1..];
      ControlsEscaped(t[1..]);
    }
  }

  lemma IssueAtHeavy(path: Text)
    ensures Size(IssueAt(path)) >= 18 * WIDE
  {
    hide Size, EntrySize, MembersSize, Controls;
    HeavyFields(IssueAt(path).members);
    SizeIsSum(IssueAt(path));
  }

  // Three fields of control characters.
  lemma HeavyFields(m: seq<Member>)
    requires |m| >= 3 && m[0].value == m[1].value == m[2].value == Str(Controls(WIDE))
    ensures MembersSize(m) >= 18 * WIDE
  {
    hide Size, EntrySize, Escaped, Bytes;
    ControlsEscaped(Controls(WIDE));
    QuoteHeavy(Controls(WIDE));
    EntryAtLeast(m[0]);
    EntryAtLeast(m[1]);
    EntryAtLeast(m[2]);
    MembersSizeAppend(m[..0], m[0]);
    MembersSizeAppend(m[..1], m[1]);
    MembersSizeAppend(m[..2], m[2]);
    assert m[..1] == m[..0] + [m[0]] && m[..2] == m[..1] + [m[1]] && m[..3] == m[..2] + [m[2]];
    MembersSizePrefix(m, 3);
  }

  lemma QuoteHeavy(t: Text)
    ensures Size(Str(t)) >= |Escaped(t)|
  {
    hide Escaped;
    UnitsWithinBytes(Quote(t));
  }

  lemma EntryAtLeast(m: Member)
    ensures EntrySize(m) >= Size(m.value)
  {}

  lemma TwoAreTooMany(x: Json, y: Json, counter: Member)
    requires Size(x) >= 18 * WIDE && Size(y) >= 18 * WIDE
    ensures Size(Obj([Member(ISSUES, Arr([x, y])), counter])) > DETAILS_LIMIT
  {
    hide Size, EntrySize;
    var m := [Member(ISSUES, Arr([x, y])), counter];
    ItemsSizeAppend([], x);
    ItemsSizeAppend([x], y);
    assert [] + [x] == [x] && [x] + [y] == [x, y];
    SizeIsSum(Arr([x, y]));
    EntryAtLeast(m[0]);
    MembersSizeAppend(m[..0], m[0]);
    assert m[..1] == m[..0] + [m[0]];
    MembersSizePrefix(m, 1);
    SizeIsSum(Obj(m));
  }

  lemma IssueAtBounds(path: Text)
    requires |path| <= 1
    ensures Size(IssueAt(path)) <= 4950 && PrettySize(IssueAt(path), 8) <= 5000
  {
    hide Size, PrettySize, Controls, ScalarBounds, Bytes;
    KeyLengths();
    var m := IssueAt(path).members;
    assert m == m[..3] + [m[3]];
    Scalars3(m[..3]);
    QuoteBound(path);
    PrettyScalar(Str(path), 10);
    assert Size(Str(path)) == Bytes(Quote(path)) by { StringSize(path); }
    ScalarRecord(m[..3], PATH, Str(path), 8);
  }

  lemma StringSize(t: Text)
    ensures Size(Str(t)) == Bytes(Quote(t))
  {}

  lemma DetailsBounds(x: Json, path: Text, letters: SafeInt)
    requires Size(x) <= 4950 && PrettySize(x, 8) <= 5000 && |path| <= 1
    ensures Size(Obj(OneIssue(x, path, letters))) <= 5400 && PrettySize(Obj(OneIssue(x, path, letters)), 4) <= 5500
  {
    hide Size, EntrySize, PrettySize, Bytes, PrettyEntrySize, MembersSize, PrettyLines;
    var m := OneIssue(x, path, letters);
    IssuesPart(x);
    SmallParts(path, letters);
    EntryParts(m[1]);
    EntryParts(m[2]);
    EntryParts(m[3]);
    FourEntries(m);
    SizeIsSum(Obj(m));
    FourLines(m, 6);
    PrettyIsSum(m, 4);
  }

  lemma IssuesPart(x: Json)
    requires Size(x) <= 4950 && PrettySize(x, 8) <= 5000
    ensures EntrySize(Member(ISSUES, Arr([x]))) <= 4991 && PrettyEntrySize(Member(ISSUES, Arr([x])), 6) <= 5064
  {
    hide Size, EntrySize, PrettySize, Bytes, PrettyEntrySize;
    KeyLengths();
    ItemsSizeAppend([], x);
    assert [] + [x] == [x];
    SizeIsSum(Arr([x]));
    PrettyLone(x, 6);
    QuoteBound(ISSUES);
    EntryParts(Member(ISSUES, Arr([x])));
  }

  lemma SmallParts(path: Text, letters: SafeInt)
    requires |path| <= 1
    ensures EntrySize(Member(OMITTED_DIAGNOSTICS, Int(2))) <= 154 && EntrySize(Member(PATH, Str(path))) <= 52
    ensures EntrySize(Member(OMITTED_CHARACTERS, Int(letters))) <= 184
  {
    KeyLengths();
    hide EntrySize;
    EntryBound(Member(OMITTED_DIAGNOSTICS, Int(2)));
    EntryBound(Member(PATH, Str(path)));
    EntryBound(Member(OMITTED_CHARACTERS, Int(letters)));
  }

  // The bytes of a member in both texts.
  lemma EntryParts(m: Member)
    ensures EntrySize(m) == Bytes(Quote(m.key)) + 1 + Size(m.value)
    ensures PrettyEntrySize(m, 6) == 6 + Bytes(Quote(m.key)) + 2 + PrettySize(m.value, 6)
    ensures IsScalar(m.value) ==> PrettyEntrySize(m, 6) == EntrySize(m) + 7
  {
    if IsScalar(m.value) { PrettyScalar(m.value, 6); }
  }

  lemma FourEntries(m: seq<Member>)
    requires |m| == 4
    ensures MembersSize(m) == EntrySize(m[0]) + EntrySize(m[1]) + EntrySize(m[2]) + EntrySize(m[3]) + 3
  {
    hide EntrySize;
    MembersSizeAppend(m[..0], m[0]);
    MembersSizeAppend(m[..1], m[1]);
    MembersSizeAppend(m[..2], m[2]);
    MembersSizeAppend(m[..3], m[3]);
    assert m[..1] == m[..0] + [m[0]] && m[..2] == m[..1] + [m[1]] && m[..3] == m[..2] + [m[2]] && m == m[..3] + [m[3]];
  }

  lemma FourLines(m: seq<Member>, d: nat)
    requires |m| == 4
    ensures PrettyLines(m, d)
            == PrettyEntrySize(m[0], d) + PrettyEntrySize(m[1], d) + PrettyEntrySize(m[2], d) + PrettyEntrySize(m[3], d) + 8
  {
    hide PrettyEntrySize;
    assert m[1..][1..] == m[2..] && m[2..][1..] == m[3..] && m[3..][1..] == [];
    assert PrettyLines(m[3..], d) == PrettyEntrySize(m[3], d) + 2 + PrettyLines([], d);
    assert PrettyLines(m[2..], d) == PrettyEntrySize(m[2], d) + 2 + PrettyLines(m[3..], d);
    assert PrettyLines(m[1..], d) == PrettyEntrySize(m[1], d) + 2 + PrettyLines(m[2..], d);
  }

  lemma EnvelopeBounds(f: Failure)
    requires ScalarBounds(FailureHead(f)) <= 1500 && PrettySize(f.details, 4) <= 5500
    ensures PrintedSize(EnvelopeJson(Envelope(EXPORT_ID, f))) <= DETAILS_LIMIT
  {
    hide Size, PrettySize, PrintedSize, ScalarBounds;
    ExportHead();
    ScalarRecord(FailureHead(f), DETAILS, f.details, 2);
    ScalarRecord(EnvelopeHead(EXPORT_ID), ERROR, FailureJson(f), 0);
    PrintedBytes(EnvelopeJson(Envelope(EXPORT_ID, f)));
  }

  lemma ExportHead()
    ensures ScalarBounds(EnvelopeHead(EXPORT_ID)) <= 500
  {
    Scalars3(EnvelopeHead(EXPORT_ID));
  }

  // ---------------------------------------------------------------------------------------------
  // Fitting these two issues, for every policy whose failures have a short head

  const FIRST: Json := IssueAt(U("a"))
  const SECOND: Json := IssueAt(U("b"))
  const LETTERS: SafeInt := 3 * WIDE + 1

  lemma TwoDoNotFit(c: Table, reason: Text, policy: Policy)
    requires policy.code in c.catalog
    ensures !Fits(c, reason, policy, TwoIssues(FIRST, SECOND))
  {
    hide Size, PrintedSize, IssueAt;
    IssueAtHeavy(U("a"));
    IssueAtHeavy(U("b"));
    TwoAreTooMany(FIRST, SECOND, Member(OMITTED_DIAGNOSTICS, Int(1)));
  }

  ghost predicate ShortHead(c: Table, reason: Text, policy: Policy) {
    policy.code in c.catalog && ScalarBounds(FailureHead(NativeFailure(c, reason, policy, []))) <= 1500
  }

  lemma OneFits(c: Table, reason: Text, policy: Policy)
    requires ShortHead(c, reason, policy)
    ensures Fits(c, reason, policy, OneIssue(FIRST, U("a"), LETTERS))
  {
    hide Size, PrettySize, PrintedSize, IssueAt, ScalarBounds, EnvelopeJson;
    IssueAtBounds(U("a"));
    DetailsBounds(FIRST, U("a"), LETTERS);
    var f := NativeFailure(c, reason, policy, OneIssue(FIRST, U("a"), LETTERS));
    assert FailureHead(f) == FailureHead(NativeFailure(c, reason, policy, []));
    EnvelopeBounds(f);
  }

  // A native policy with issues and both counters.
  ghost predicate IssuePolicy(c: Table, policy: Policy) {
    NativePolicy(c, policy) && ISSUES in policy.kind.rules && policy.kind.rules[ISSUES].Issues? &&
    OMITTED_DIAGNOSTICS in policy.kind.rules && OMITTED_CHARACTERS in policy.kind.rules
  }

  lemma Collects(c: Table, policy: Policy, h: Heap, v: Value)
    requires IssuePolicy(c, policy) && Denotes(h, v, Obj(TwoIssues(FIRST, SECOND)))
    ensures IsDataRecord(h, v)
    ensures NativeFold(c, policy.kind.rules, h, h[v.id].props) == Some(Draft([Member(ISSUES, Arr([FIRST, SECOND]))], 1, 0))
  {
    hide NativeFold, IssueAt, IssueForm, FieldForm, Denotes;
    var members := TwoIssues(FIRST, SECOND);
    TwoIssuesForm(policy.kind.rules);
    PlainTwo(h, v, members);
    FoldAgain(c, policy.kind.rules, h, h[v.id].props, members);
    CountOnce(FIRST, SECOND);
  }

  lemma PlainTwo(h: Heap, v: Value, members: seq<Member>)
    requires Denotes(h, v, Obj(members)) && |members| == 2
    ensures IsDataRecord(h, v) && |h[v.id].props| == 2
    ensures forall i :: 0 <= i < 2 ==>
              h[v.id].props[i].key == Name(members[i].key) && PlainSlot(h[v.id].props[i].slot) &&
              Denotes(h, h[v.id].props[i].slot.value, members[i].value)
  {}

  lemma TwoIssuesForm(rules: map<Text, NativeRule>)
    requires ISSUES in rules && rules[ISSUES].Issues?
    ensures forall m :: m in TwoIssues(FIRST, SECOND) ==> if IsCounter(m.key) then m.value.Int? && m.value.value > 0 else FieldForm(rules, m)
  {
    hide IssueAt, IssueForm;
    FittingKeys();
    AsciiBytes(U("a"));
    AsciiBytes(U("b"));
    IssueAtForm(U("a"));
    IssueAtForm(U("b"));
  }

  lemma CountOnce(x: Json, y: Json)
    ensures DraftOf(TwoIssues(x, y)) == Draft([Member(ISSUES, Arr([x, y]))], 1, 0)
  {
    FittingKeys();
    var m := TwoIssues(x, y);
    assert m[..1] == [m[0]] && m[..1][..0] == [];
    DraftOfStep(m);
    DraftOfStep(m[..1]);
    assert [] + [m[0]] == [m[0]];
  }

  /** Given these two issues and one counted omission, the details end with the path behind the count. */
  lemma PathComesLater(c: Table, reason: Text, policy: Policy, h: Heap, v: Value)
    requires IssuePolicy(c, policy) && ShortHead(c, reason, policy) && Denotes(h, v, Obj(TwoIssues(FIRST, SECOND)))
    ensures NativeDetails(c, reason, policy, h, v) == Some(Obj(OneIssue(FIRST, U("a"), LETTERS)))
    ensures !CountersLast(OneIssue(FIRST, U("a"), LETTERS))
  {
    hide NativeFold, IssueAt, Fit, Tidy, ShortHead, PathOf, Letters, Fits, Denotes;
    Collects(c, policy, h, v);
    AsciiBytes(U("a"));
    AsciiBytes(U("b"));
    IssueAtForm(U("a"));
    IssueAtForm(U("b"));
    IssueAtLetters(U("b"));
    assert U("a")[0] == 0x61 && U("b")[0] == 0x62;
    TwoDoNotFit(c, reason, policy);
    OneFits(c, reason, policy);
    FitsInTwoTurns(c, reason, policy, FIRST, SECOND, U("a"));
    Summarize(FIRST, SECOND);
    OneIssueOrder(FIRST, U("a"), LETTERS);
  }

  lemma Summarize(x: Json, y: Json)
    requires PathOf(x).Some?
    ensures Summarizes(IssuesIn([Member(ISSUES, Arr([x, y]))]))
  {
    hide PathOf;
    assert IssuesIn([Member(ISSUES, Arr([x, y]))])[0] == x;
  }

  lemma IssueAtInBudget(path: Text)
    requires Bytes(path) <= SHORT
    ensures InBudget(IssueAt(path), 2, SHORT)
  {
    hide Bytes, Controls;
    AsciiBytes(Controls(WIDE));
  }

  lemma OneIssueInBudget(x: Json, path: Text, letters: SafeInt)
    requires InBudget(x, 2, SHORT) && Bytes(path) <= SHORT
    ensures InBudget(Obj(OneIssue(x, path, letters)), 0, SHORT)
  {
    hide Bytes;
    assert InBudget(Arr([x]), 1, SHORT);
    var m := OneIssue(x, path, letters);
    forall i | 0 <= i < 4 ensures InBudget(m[i].value, 1, SHORT) {}
  }

  lemma FittedInBudget()
    ensures InBudget(Obj(OneIssue(FIRST, U("a"), LETTERS)), 0, SHORT)
    ensures Size(Obj(OneIssue(FIRST, U("a"), LETTERS))) <= DETAILS_LIMIT
  {
    hide InBudget, Size, PrettySize, IssueAt, OneIssue, Bytes;
    AsciiBytes(U("a"));
    IssueAtInBudget(U("a"));
    OneIssueInBudget(FIRST, U("a"), LETTERS);
    IssueAtBounds(U("a"));
    DetailsBounds(FIRST, U("a"), LETTERS);
  }

  lemma TwoIssuesStorable()
    ensures Storable(Obj(TwoIssues(FIRST, SECOND)))
  {
    KeyLengths();
    hide Controls;
  }
}

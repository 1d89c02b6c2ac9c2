/** What fitting keeps of native diagnostics: packages/contracts/src/failure.ts, lines 707-714. */
module FittedPrefix {
  import opened JsonText
  import opened JsonFacts
  import opened FailureModel
  import opened NativeCollection
  import opened NativeFitting
  import opened NativeConservation

  function Parts<T>(members: seq<Member>, f: Member -> seq<T>): seq<T> {
    if members == [] then [] else f(members[0]) + Parts(members[1..], f)
  }

  lemma {:induction false} PartsConcat<T>(a: seq<Member>, b: seq<Member>, f: Member -> seq<T>)
    ensures Parts(a + b, f) == Parts(a, f) + Parts(b, f)
  {
    if a == [] {
      assert a + b == b;
    } else {
      PartsConcat(a[1..], b, f);
      assert (a + b)[1..] == a[1..] + b;
    }
  }

  lemma {:induction false} PartsNone<T>(members: seq<Member>, f: Member -> seq<T>)
    requires forall m :: m in members ==> f(m) == []
    ensures Parts(members, f) == []
  {
    if members != [] {
      PartsNone(members[1..], f);
    }
  }

  lemma PartsSplit<T>(members: seq<Member>, i: nat, f: Member -> seq<T>)
    requires i < |members|
    ensures Parts(members, f) == Parts(members[..i], f) + f(members[i]) + Parts(members[i + 1..], f)
  {
    assert members == members[..i] + members[i..];
    PartsConcat(members[..i], members[i..], f);
    assert members[i..][1..] == members[i + 1..];
  }

  // The path, where it is a summary, and the counters are no lists.
  predicate Loose(summarize: bool, members: seq<Member>) {
    forall m :: m in members && Uncounted(summarize, m.key) ==> !m.value.Arr?
  }

  // f looks neither at the summary nor at the counters.
  ghost predicate Blind<T(!new)>(summarize: bool, f: Member -> seq<T>) {
    forall m: Member :: Uncounted(summarize, m.key) && !m.value.Arr? ==> f(m) == []
  }

  lemma {:induction false} PartsPut<T(!new)>(summarize: bool, members: seq<Member>, key: Text, value: Json, f: Member -> seq<T>)
    requires Loose(summarize, members) && Blind(summarize, f) && Uncounted(summarize, key) && !value.Arr?
    ensures Loose(summarize, Put(members, key, value)) && Parts(Put(members, key, value), f) == Parts(members, f)
  {
    hide Uncounted;
    assert Uncounted(summarize, Member(key, value).key) && f(Member(key, value)) == [];
    if members != [] {
      assert members[0] in members;
      if members[0].key != key { PartsPut(summarize, members[1..], key, value, f); }
    }
  }

  lemma {:induction false} PartsWithout<T(!new)>(summarize: bool, members: seq<Member>, key: Text, f: Member -> seq<T>)
    requires Loose(summarize, members) && Blind(summarize, f) && Uncounted(summarize, key)
    ensures Loose(summarize, Without(members, key)) && Parts(Without(members, key), f) == Parts(members, f)
  {
    hide Uncounted;
    if members != [] {
      assert members[0] in members;
      if members[0].key != key {
        PartsWithout(summarize, members[1..], key, f);
        assert ([members[0]] + Without(members[1..], key))[1..] == Without(members[1..], key);
      }
    }
  }

  lemma TidyLoose(summarize: bool, members: seq<Member>)
    requires Tidy(summarize, members)
    ensures Loose(summarize, members)
  {
    hide Lookup;
    forall m | m in members && Uncounted(summarize, m.key) ensures !m.value.Arr? {
      var i :| 0 <= i < |members| && members[i] == m;
      LookupAt(members, i);
    }
  }

  lemma PartsRefresh<T(!new)>(summarize: bool, d: Draft<Member>, f: Member -> seq<T>)
    requires Tidy(summarize, d.kept) && Blind(summarize, f) && Refresh(summarize, d).Some?
    ensures Parts(Refresh(summarize, d).value, f) == Parts(d.kept, f)
  {
    hide Put, Without, Loose, Blind, Tidy, Summary, IssuesIn;
    TidyLoose(summarize, d.kept);
    var a := Summarized(summarize, d.kept);
    if summarize {
      match Summary(IssuesIn(d.kept)) {
        case Some(path) => PartsPut(summarize, d.kept, PATH, Str(path), f);
        case None => PartsWithout(summarize, d.kept, PATH, f);
      }
    }
    var b := Counted(a, OMITTED_DIAGNOSTICS, d.omitted);
    if d.omitted > 0 { PartsPut(summarize, a, OMITTED_DIAGNOSTICS, Int(d.omitted), f); }
    if d.characters > 0 { PartsPut(summarize, b, OMITTED_CHARACTERS, Int(d.characters), f); }
  }

  // ---------------------------------------------------------------------------------------------
  // All list entries in order, and all strings in order but a summary

  function EntriesOf(m: Member): seq<Json> { if m.value.Arr? then m.value.items else [] }

  function TextOf(summarize: bool): Member -> seq<Member> {
    (m: Member) => if m.value.Str? && !Uncounted(summarize, m.key) then [m] else []
  }

  function Listed(members: seq<Member>): seq<Json> { Parts(members, EntriesOf) }

  function Texts(summarize: bool, members: seq<Member>): seq<Member> { Parts(members, TextOf(summarize)) }

  lemma PartsReplace<T>(members: seq<Member>, i: nat, m: Member, f: Member -> seq<T>)
    requires i < |members| && forall n :: n in members[i + 1..] ==> f(n) == []
    ensures Parts(members, f) == Parts(members[..i], f) + f(members[i])
    ensures Parts(members[i := m], f) == Parts(members[..i], f) + f(m)
    ensures Parts(members[..i] + members[i + 1..], f) == Parts(members[..i], f)
  {
    PartsNone(members[i + 1..], f);
    PartsSplit(members, i, f);
    PartsSplit(members[i := m], i, f);
    assert members[i := m][..i] == members[..i] && members[i := m][i + 1..] == members[i + 1..];
    PartsConcat(members[..i], members[i + 1..], f);
  }

  lemma PartsSame<T>(members: seq<Member>, i: nat, m: Member, f: Member -> seq<T>)
    requires i < |members| && f(m) == f(members[i])
    ensures Parts(members[i := m], f) == Parts(members, f)
  {
    PartsSplit(members, i, f);
    PartsSplit(members[i := m], i, f);
    assert members[i := m][..i] == members[..i] && members[i := m][i + 1..] == members[i + 1..];
  }

  lemma LaterHas(members: seq<Member>, i: nat, m: Member)
    requires i < |members| && m in members[i + 1..]
    ensures exists k :: i < k < |members| && members[k] == m
  {
    var k :| 0 <= k < |members[i + 1..]| && members[i + 1..][k] == m;
    assert members[i + 1 + k] == m;
  }

  lemma EntryTaken(summarize: bool, members: seq<Member>, d: Draft<Member>)
    requires LastList(members).Some?
    ensures var next := Shrink(members, d).value;
            var entries := Listed(members);
            && entries != [] && Listed(next.kept) == entries[..|entries| - 1]
            && Texts(summarize, next.kept) == Texts(summarize, members)
            && next.characters == d.characters + Letters(entries[|entries| - 1])
  {
    hide Uncounted, Letters, Parts;
    var i := LastList(members).value;
    var next := Shrink(members, d).value.kept;
    forall m | m in members[i + 1..] ensures EntriesOf(m) == [] { LaterHas(members, i, m); }
    PartsReplace(members, i, next[i], EntriesOf);
    PartsSame(members, i, next[i], TextOf(summarize));
  }

  lemma TextTaken(summarize: bool, members: seq<Member>, d: Draft<Member>)
    requires LastList(members).None? && Shrink(members, d).Some?
    ensures var next := Shrink(members, d).value;
            var texts := Texts(summarize, members);
            && Listed(members) == [] && Listed(next.kept) == []
            && (Texts(summarize, next.kept) == texts || (texts != [] && Texts(summarize, next.kept) == texts[..|texts| - 1]))
  {
    hide Uncounted, Letters, Parts;
    var i := LastText(members).value;
    var next := Shrink(members, d).value.kept;
    PartsNone(members, EntriesOf);
    PartsNone(next, EntriesOf);
    forall m | m in members[i + 1..] ensures TextOf(summarize)(m) == [] { LaterHas(members, i, m); }
    PartsReplace(members, i, members[i], TextOf(summarize));
  }

  /** One omission takes the last list entry there is, or, without any, the last string. */
  lemma ShrinkTakesLast(summarize: bool, members: seq<Member>, d: Draft<Member>)
    requires Shrink(members, d).Some?
    ensures var next := Shrink(members, d).value;
            var entries, texts := Listed(members), Texts(summarize, members);
            if entries != [] then
              && Listed(next.kept) == entries[..|entries| - 1] && Texts(summarize, next.kept) == texts
              && next.characters == d.characters + Letters(entries[|entries| - 1])
            else Listed(next.kept) == [] && (Texts(summarize, next.kept) == texts ||
                                             (texts != [] && Texts(summarize, next.kept) == texts[..|texts| - 1]))
  {
    hide Shrink, Parts, Letters, LastList;
    if LastList(members).Some? { EntryTaken(summarize, members, d); } else { TextTaken(summarize, members, d); }
  }

  /** Entries go from the back, and strings only when no entry is left: what is left is where the given ones begin. */
  lemma {:induction false} FitPrefix(c: Table, reason: Text, policy: Policy, summarize: bool, d: Draft<Member>)
    requires policy.code in c.catalog && Tidy(summarize, d.kept)
    requires Fit(c, reason, policy, summarize, d).Some?
    ensures var out := Fit(c, reason, policy, summarize, d).value;
            && Listed(out) <= Listed(d.kept) && Texts(summarize, out) <= Texts(summarize, d.kept)
            && (Listed(out) != [] ==> Texts(summarize, out) == Texts(summarize, d.kept))
    decreases Entries(d.kept), Strings(d.kept)
  {
    hide Refresh, Shrink, Fits, Tidy, Parts, Blind, Uncounted;
    var members := Refresh(summarize, d).value;
    FitDecreases(summarize, d);
    AllBlind(summarize);
    PartsRefresh(summarize, d, EntriesOf);
    PartsRefresh(summarize, d, TextOf(summarize));
    if !Fits(c, reason, policy, members) {
      ShrinkTakesLast(summarize, members, d);
      FitPrefix(c, reason, policy, summarize, Shrink(members, d).value);
    }
  }

  lemma AllBlind(summarize: bool)
    ensures Blind(summarize, EntriesOf) && Blind(summarize, TextOf(summarize))
  {}
}

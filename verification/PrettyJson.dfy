/** The indented JSON text, JSON.stringify(value, null, 2), and how it and the compact text depend on member order. */
module PrettyJson {
  import opened JsonText
  import opened JsonFacts

  const LINE: Text := [0x0A]

  function Spaces(n: nat): Text { if n == 0 then [] else Spaces(n - 1) + [0x20] }

  // A value whose own lines are indented by d.
  function Pretty(v: Json, d: nat): Text {
    match v
    case Arr(items) =>
      if items == [] then Stringify(v) else [0x5B] + (LINE + PrettyItems(items, d + 2) + LINE + Spaces(d)) + [0x5D]
    case Obj(members) =>
      if members == [] then Stringify(v) else [0x7B] + (LINE + PrettyMembers(members, d + 2) + LINE + Spaces(d)) + [0x7D]
    case _ => Stringify(v)
  }

  function PrettyItems(items: seq<Json>, d: nat): Text {
    if items == [] then []
    else if |items| == 1 then Spaces(d) + Pretty(items[0], d)
    else Spaces(d) + Pretty(items[0], d) + (COMMA + LINE) + PrettyItems(items[1..], d)
  }

  function PrettyEntry(m: Member, d: nat): Text { Spaces(d) + Quote(m.key) + (COLON + [0x20]) + Pretty(m.value, d) }

  function PrettyMembers(members: seq<Member>, d: nat): Text {
    if members == [] then []
    else if |members| == 1 then PrettyEntry(members[0], d)
    else PrettyEntry(members[0], d) + (COMMA + LINE) + PrettyMembers(members[1..], d)
  }

  function PrettySize(v: Json, d: nat): nat { Bytes(Pretty(v, d)) }

  // ---------------------------------------------------------------------------------------------
  // Sizes

  lemma {:induction false} SpacesBytes(n: nat)
    ensures Sealed(Spaces(n)) && Bytes(Spaces(n)) == n
  {
    if n > 0 {
      SpacesBytes(n - 1);
      AsciiBytes([0x20]);
      SealedConcat(Spaces(n - 1), [0x20]);
    }
  }

  lemma Joined(a: Text, b: Text, c: Text)
    requires Sealed(a) && Sealed(b) && Sealed(c)
    ensures Sealed(a + b + c) && Bytes(a + b + c) == Bytes(a) + Bytes(b) + Bytes(c)
  {
    SealedConcat(a, b);
    SealedConcat(a + b, c);
  }

  lemma ShortBytes()
    ensures Sealed(LINE) && Bytes(LINE) == 1
    ensures Sealed(COMMA + LINE) && Bytes(COMMA + LINE) == 2
    ensures Sealed(COLON + [0x20]) && Bytes(COLON + [0x20]) == 2
  {
    AsciiBytes(LINE);
    AsciiBytes(COMMA + LINE);
    AsciiBytes(COLON + [0x20]);
  }

  function PrettyEntrySize(m: Member, d: nat): nat { d + Bytes(Quote(m.key)) + 2 + PrettySize(m.value, d) }

  // The lines of a record, each with its separator.
  function PrettyLines(members: seq<Member>, d: nat): nat {
    if members == [] then 0 else PrettyEntrySize(members[0], d) + 2 + PrettyLines(members[1..], d)
  }

  lemma {:induction false} PrettySealed(v: Json, d: nat)
    ensures Pretty(v, d) != [] && Sealed(Pretty(v, d))
  {
    StringifySealed(v);
  }

  lemma PrettyEntryBytes(m: Member, d: nat)
    ensures Sealed(PrettyEntry(m, d)) && Bytes(PrettyEntry(m, d)) == PrettyEntrySize(m, d)
  {
    hide Pretty, Quote;
    SpacesBytes(d);
    ShortBytes();
    PrettySealed(m.value, d);
    StringifySealed(Str(m.key));
    assert Quote(m.key) == Stringify(Str(m.key));
    Joined(Spaces(d), Quote(m.key), COLON + [0x20]);
    SealedConcat(Spaces(d) + Quote(m.key) + (COLON + [0x20]), Pretty(m.value, d));
  }

  lemma {:induction false} PrettyMembersBytes(members: seq<Member>, d: nat)
    ensures Sealed(PrettyMembers(members, d))
    ensures members != [] ==> Bytes(PrettyMembers(members, d)) + 2 == PrettyLines(members, d)
  {
    hide PrettyEntry, PrettyEntrySize, Utf8;
    if members != [] {
      PrettyEntryBytes(members[0], d);
      PrettyMembersBytes(members[1..], d);
      if |members| > 1 {
        ShortBytes();
        Joined(PrettyEntry(members[0], d), COMMA + LINE, PrettyMembers(members[1..], d));
      }
    }
  }

  // The byte size of an indented record: its lines, its brackets and the indentation of the last one.
  lemma PrettyIsSum(members: seq<Member>, d: nat)
    ensures PrettySize(Obj(members), d) == 2 + if members == [] then 0 else PrettyLines(members, d + 2) + d
  {
    hide PrettyMembers, Utf8, PrettyLines;
    if members == [] {
      AsciiBytes([0x7B] + [] + [0x7D]);
      assert Stringify(Obj([])) == [0x7B] + [] + [0x7D];
    } else {
      PrettyMembersBytes(members, d + 2);
      var lines := PrettyMembers(members, d + 2);
      ShortBytes();
      SpacesBytes(d);
      Joined(LINE, lines, LINE);
      SealedConcat(LINE + lines + LINE, Spaces(d));
      Bracketed(0x7B, LINE + lines + LINE + Spaces(d), 0x7D);
    }
  }

  // An indented list of one value: two brackets, two line breaks and the indentation of both lines.
  lemma PrettyLone(x: Json, d: nat)
    ensures PrettySize(Arr([x]), d) == 4 + (d + 2) + PrettySize(x, d + 2) + d
  {
    hide Pretty, Utf8;
    PrettySealed(x, d + 2);
    ShortBytes();
    SpacesBytes(d + 2);
    SpacesBytes(d);
    assert Pretty(Arr([x]), d) == [0x5B] + (LINE + PrettyItems([x], d + 2) + LINE + Spaces(d)) + [0x5D] by { PrettyList([x], d); }
    assert PrettyItems([x], d + 2) == Spaces(d + 2) + Pretty(x, d + 2);
    SealedConcat(Spaces(d + 2), Pretty(x, d + 2));
    Joined(LINE, PrettyItems([x], d + 2), LINE);
    SealedConcat(LINE + PrettyItems([x], d + 2) + LINE, Spaces(d));
    Bracketed(0x5B, LINE + PrettyItems([x], d + 2) + LINE + Spaces(d), 0x5D);
  }

  lemma PrettyList(items: seq<Json>, d: nat)
    requires items != []
    ensures Pretty(Arr(items), d) == [0x5B] + (LINE + PrettyItems(items, d + 2) + LINE + Spaces(d)) + [0x5D]
  {
    hide PrettyItems;
  }

  // A scalar is printed the same in both texts.
  lemma PrettyScalar(v: Json, d: nat)
    requires IsScalar(v)
    ensures PrettySize(v, d) == Size(v)
  {}

  // ---------------------------------------------------------------------------------------------
  // Neither size depends on the order of the members

  function Sum<T>(s: seq<T>, f: T -> nat): nat { if s == [] then 0 else f(s[0]) + Sum(s[1..], f) }

  lemma {:induction false} SumSplit<T>(a: seq<T>, b: seq<T>, f: T -> nat)
    ensures Sum(a + b, f) == Sum(a, f) + Sum(b, f)
  {
    if a == [] {
      assert a + b == b;
    } else {
      assert (a + b)[1..] == a[1..] + b;
      SumSplit(a[1..], b, f);
    }
  }

  lemma WithoutOne<T>(s: seq<T>, i: nat, f: T -> nat)
    requires i < |s|
    ensures multiset(s[..i] + s[i + 1..]) == multiset(s) - multiset{s[i]}
    ensures Sum(s, f) == f(s[i]) + Sum(s[..i] + s[i + 1..], f)
  {
    hide Sum;
    assert s == s[..i] + ([s[i]] + s[i + 1..]);
    SumMiddle(s[..i], s[i], s[i + 1..], f);
  }

  lemma SumMiddle<T>(a: seq<T>, x: T, b: seq<T>, f: T -> nat)
    ensures Sum(a + ([x] + b), f) == f(x) + Sum(a + b, f)
  {
    SumSplit(a, b, f);
    SumSplit(a, [x] + b, f);
    assert ([x] + b)[1..] == b;
  }

  lemma {:induction false} SumPermuted<T>(a: seq<T>, b: seq<T>, f: T -> nat)
    requires multiset(a) == multiset(b)
    ensures Sum(a, f) == Sum(b, f) && |a| == |b|
  {
    hide Sum;
    assert |a| == |multiset(a)| && |b| == |multiset(b)|;
    if a == [] {
      assert b == a;
    } else {
      assert a[0] in multiset(b);
      var i :| 0 <= i < |b| && b[i] == a[0];
      WithoutOne(a, 0, f);
      WithoutOne(b, i, f);
      SumPermuted(a[..0] + a[1..], b[..i] + b[i + 1..], f);
    }
  }

  lemma {:induction false} LinesAreSum(members: seq<Member>, d: nat, f: Member -> nat)
    requires forall m :: f(m) == PrettyEntrySize(m, d) + 2
    ensures PrettyLines(members, d) == Sum(members, f)
  {
    if members != [] {
      LinesAreSum(members[1..], d, f);
    }
  }

  lemma {:induction false} MembersAreSum(members: seq<Member>, f: Member -> nat)
    requires forall m :: f(m) == EntrySize(m)
    ensures MembersSize(members) == Sum(members, f) + if members == [] then 0 else |members| - 1
  {
    hide EntrySize;
    if members != [] {
      var n := |members| - 1;
      MembersAreSum(members[..n], f);
      assert members == members[..n] + [members[n]];
      SumSplit(members[..n], [members[n]], f);
    }
  }

  /** Members in another order take as many bytes, in both texts. */
  lemma SizesPermuted(a: seq<Member>, b: seq<Member>, d: nat)
    requires multiset(a) == multiset(b)
    ensures Size(Obj(a)) == Size(Obj(b)) && PrettySize(Obj(a), d) == PrettySize(Obj(b), d)
  {
    hide EntrySize, PrettyEntrySize, Size, PrettySize, MembersSize, PrettyLines;
    var entry := (m: Member) => EntrySize(m);
    var line := (m: Member) => PrettyEntrySize(m, d + 2) + 2;
    SumPermuted(a, b, entry);
    SumPermuted(a, b, line);
    MembersAreSum(a, entry);
    MembersAreSum(b, entry);
    LinesAreSum(a, d + 2, line);
    LinesAreSum(b, d + 2, line);
    SizeIsSum(Obj(a));
    SizeIsSum(Obj(b));
    PrettyIsSum(a, d);
    PrettyIsSum(b, d);
  }

  lemma {:induction false} LinesAppend(a: seq<Member>, b: seq<Member>, d: nat)
    ensures PrettyLines(a + b, d) == PrettyLines(a, d) + PrettyLines(b, d)
  {
    if a == [] {
      assert a + b == b;
    } else {
      assert (a + b)[1..] == a[1..] + b;
      LinesAppend(a[1..], b, d);
    }
  }

  // A record whose last value changes to one of the same size keeps its size.
  lemma LastResized(init: seq<Member>, key: Text, x: Json, y: Json, d: nat)
    requires Size(x) == Size(y) && PrettySize(x, d + 2) == PrettySize(y, d + 2)
    ensures Size(Obj(init + [Member(key, x)])) == Size(Obj(init + [Member(key, y)]))
    ensures PrettySize(Obj(init + [Member(key, x)]), d) == PrettySize(Obj(init + [Member(key, y)]), d)
  {
    hide Size, PrettySize;
    MemberSizes(init, Member(key, x));
    MemberSizes(init, Member(key, y));
    PrettyIsSum(init + [Member(key, x)], d);
    PrettyIsSum(init + [Member(key, y)], d);
    LinesAppend(init, [Member(key, x)], d + 2);
    LinesAppend(init, [Member(key, y)], d + 2);
    LastLine(Member(key, x), d + 2);
    LastLine(Member(key, y), d + 2);
  }

  lemma LastLine(m: Member, d: nat)
    ensures PrettyLines([m], d) == PrettyEntrySize(m, d) + 2
  {
    assert PrettyLines([m][1..], d) == 0;
  }

  // A whole indented text and the newline after it.
  function PrintedSize(v: Json): nat { Bytes(Pretty(v, 0) + LINE) }

  lemma PrintedBytes(v: Json)
    ensures PrintedSize(v) == PrettySize(v, 0) + 1
  {
    hide Pretty, Utf8;
    PrettySealed(v, 0);
    ShortBytes();
    SealedConcat(Pretty(v, 0), LINE);
  }
}

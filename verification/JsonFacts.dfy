/** What the compact JSON text promises: its UTF-8 size is a sum over parts, and it reads back uniquely. */
module JsonFacts {
  import opened Options
  import opened JsonText

  // ---------------------------------------------------------------------------------------------
  // Sizes

  function Size(v: Json): nat { Bytes(Stringify(v)) }

  lemma SealedConcat(a: Text, b: Text)
    requires Sealed(a) && Sealed(b)
    ensures Sealed(a + b)
    ensures Bytes(a + b) == Bytes(a) + Bytes(b)
  {
    Utf8Concat(a, b);
  }

  lemma {:induction false} EscapedSealed(t: Text)
    ensures Sealed(Escaped(t))
    decreases |t|
  {
    if t != [] {
      EscapedSealed(Rest(t));
    }
  }

  lemma {:induction false} StringifySealed(v: Json)
    ensures Stringify(v) != [] && Sealed(Stringify(v))
  {}

  lemma {:induction false} ItemsSealed(items: seq<Json>)
    ensures Sealed(Items(items))
  {
    if items != [] {
      StringifySealed(items[0]);
      ItemsSealed(items[1..]);
    }
  }

  lemma {:induction false} MembersSealed(members: seq<Member>)
    ensures Sealed(Members(members))
  {
    if members != [] {
      StringifySealed(members[0].value);
      MembersSealed(members[1..]);
    }
  }

  lemma {:induction false} ItemsAppend(items: seq<Json>, last: Json)
    ensures Items(items + [last]) == (if items == [] then [] else Items(items) + COMMA) + Stringify(last)
  {
    if items == [] {
      assert items + [last] == [last];
    } else {
      assert (items + [last])[1..] == items[1..] + [last];
      ItemsAppend(items[1..], last);
    }
  }

  lemma {:induction false} MembersAppend(members: seq<Member>, last: Member)
    ensures Members(members + [last]) == (if members == [] then [] else Members(members) + COMMA) + Entry(last)
  {
    if members == [] {
      assert members + [last] == [last];
    } else {
      assert (members + [last])[1..] == members[1..] + [last];
      MembersAppend(members[1..], last);
    }
  }

  // The separators and values of a list, counted from the left.
  function ItemsSize(items: seq<Json>): nat {
    if items == [] then 0
    else ItemsSize(items[..|items| - 1]) + (if |items| > 1 then 1 else 0) + Size(items[|items| - 1])
  }

  function EntrySize(m: Member): nat { Bytes(Quote(m.key)) + 1 + Size(m.value) }

  function MembersSize(members: seq<Member>): nat {
    if members == [] then 0
    else MembersSize(members[..|members| - 1]) + (if |members| > 1 then 1 else 0) + EntrySize(members[|members| - 1])
  }

  lemma ItemsSizeAppend(items: seq<Json>, last: Json)
    ensures ItemsSize(items + [last]) == ItemsSize(items) + (if items == [] then 0 else 1) + Size(last)
  {
    assert (items + [last])[..|items|] == items;
  }

  lemma MembersSizeAppend(members: seq<Member>, last: Member)
    ensures MembersSize(members + [last]) == MembersSize(members) + (if members == [] then 0 else 1) + EntrySize(last)
  {
    assert (members + [last])[..|members|] == members;
  }

  // A prefix takes no more bytes than the whole.
  lemma {:induction false} ItemsSizePrefix(items: seq<Json>, n: nat)
    requires n <= |items|
    ensures ItemsSize(items[..n]) <= ItemsSize(items)
    decreases |items|
  {
    if n == |items| {
      assert items[..n] == items;
    } else {
      ItemsSizePrefix(items[..|items| - 1], n);
      assert items[..|items| - 1][..n] == items[..n];
    }
  }

  lemma {:induction false} MembersSizePrefix(members: seq<Member>, n: nat)
    requires n <= |members|
    ensures MembersSize(members[..n]) <= MembersSize(members)
    decreases |members|
  {
    if n == |members| {
      assert members[..n] == members;
    } else {
      MembersSizePrefix(members[..|members| - 1], n);
      assert members[..|members| - 1][..n] == members[..n];
    }
  }

  lemma SeparatedBytes(list: Text, first: bool, last: Text)
    requires Sealed(list) && Sealed(last)
    ensures Bytes((if first then [] else list + COMMA) + last) == (if first then 0 else Bytes(list) + 1) + Bytes(last)
  {
    SealedConcat(list, COMMA);
    SealedConcat(if first then [] else list + COMMA, last);
    AsciiBytes(COMMA);
  }

  lemma {:induction false} ItemsBytes(items: seq<Json>)
    ensures Bytes(Items(items)) == ItemsSize(items)
  {
    if items != [] {
      var init, last := items[..|items| - 1], items[|items| - 1];
      ItemsBytes(init);
      assert items == init + [last];
      ItemsAppend(init, last);
      ItemsSealed(init);
      StringifySealed(last);
      SeparatedBytes(Items(init), init == [], Stringify(last));
    }
  }

  lemma EntryBytes(m: Member)
    ensures Sealed(Entry(m)) && Bytes(Entry(m)) == EntrySize(m)
  {
    StringifySealed(m.value);
    SealedConcat(Quote(m.key), COLON);
    SealedConcat(Quote(m.key) + COLON, Stringify(m.value));
    AsciiBytes(COLON);
  }

  lemma NoBytes()
    ensures Bytes([]) == 0
  {}

  lemma {:induction false} MembersBytes(members: seq<Member>)
    ensures Bytes(Members(members)) == MembersSize(members)
  {
    hide Bytes, Quote, Entry, EntrySize;
    NoBytes();
    if members != [] {
      var init, last := members[..|members| - 1], members[|members| - 1];
      MembersBytes(init);
      assert members == init + [last];
      MembersAppend(init, last);
      MembersSealed(init);
      EntryBytes(last);
      SeparatedBytes(Members(init), init == [], Entry(last));
    }
  }

  lemma Bracketed(open: CodeUnit, t: Text, close: CodeUnit)
    requires open < 0x80 && close < 0x80 && Sealed(t)
    ensures Bytes([open] + t + [close]) == Bytes(t) + 2
  {
    AsciiBytes([open]);
    AsciiBytes([close]);
    SealedConcat([open], t);
    SealedConcat([open] + t, [close]);
  }

  // The byte size of a list or record is two brackets, its separators and the sizes of its parts.
  lemma SizeIsSum(v: Json)
    ensures v.Arr? ==> Size(v) == 2 + ItemsSize(v.items)
    ensures v.Obj? ==> Size(v) == 2 + MembersSize(v.members)
  {
    match v
    case Arr(items) =>
      ItemsSealed(items);
      ItemsBytes(items);
      Bracketed(0x5B, Items(items), 0x5D);
    case Obj(members) =>
      MembersSealed(members);
      MembersBytes(members);
      Bracketed(0x7B, Members(members), 0x7D);
    case _ =>
  }

  lemma MemberSizes(members: seq<Member>, last: Member)
    ensures Size(Obj(members + [last])) == Size(Obj(members)) + (if members == [] then 0 else 1) + EntrySize(last)
  {
    SizeIsSum(Obj(members));
    SizeIsSum(Obj(members + [last]));
    MembersSizeAppend(members, last);
  }

  // ---------------------------------------------------------------------------------------------
  // Bounds

  lemma PieceBytes(t: Text)
    requires t != []
    ensures Bytes(Piece(t)) <= 6 * (|t| - |Rest(t)|)
  {
    if Pair(t) {
      assert Utf8(t[..2]) == EncodeScalar(Scalar(t[0], t[1])) + Utf8([]) by { assert t[..2][2..] == []; }
    } else if |Piece(t)| > 1 {
      AsciiBytes(Piece(t));
    } else {
      assert Utf8([t[0]]) == EncodeScalar(t[0]) + Utf8([]);
    }
  }

  lemma {:induction false} EscapedBytes(t: Text)
    ensures Bytes(Escaped(t)) <= 6 * |t|
    decreases |t|
  {
    if t != [] {
      PieceBytes(t);
      EscapedBytes(Rest(t));
      EscapedSealed(Rest(t));
      SealedConcat(Piece(t), Escaped(Rest(t)));
    }
  }

  // A quoted string takes at most six bytes a code unit.
  lemma QuoteBound(t: Text)
    ensures Bytes(Quote(t)) <= 6 * |t| + 2
  {
    EscapedSealed(t);
    EscapedBytes(t);
    Bracketed(0x22, Escaped(t), 0x22);
  }

  // A text takes at most three bytes a code unit.
  lemma {:induction false} BytesWithinUnits(t: Text)
    ensures Bytes(t) <= 3 * |t|
    decreases |t|
  {
    if t != [] {
      if Pair(t) { BytesWithinUnits(t[2..]); } else { BytesWithinUnits(t[1..]); }
    }
  }

  lemma {:induction false} MembersSizeBound(members: seq<Member>, bound: nat)
    requires forall i :: 0 <= i < |members| ==> EntrySize(members[i]) <= bound
    ensures MembersSize(members) <= |members| * (bound + 1)
  {
    hide EntrySize;
    if members != [] {
      var n := |members| - 1;
      MembersSizeBound(members[..n], bound);
      assert |members| * (bound + 1) == n * (bound + 1) + bound + 1;
    }
  }

  lemma BoolSize(flag: bool)
    ensures Size(Bool(flag)) == if flag then 4 else 5
  {
    AsciiBytes(Stringify(Bool(flag)));
  }

  lemma IntSize(n: SafeInt)
    ensures Size(Int(n)) <= 17
  {
    SafeIntLength(n);
    AsciiBytes(IntegerText(n));
  }

  // A member holding a flag, a safe integer or a text is bounded by its lengths.
  lemma EntryBound(m: Member)
    requires m.value.Bool? || m.value.Int? || m.value.Str?
    ensures EntrySize(m) <= 6 * |m.key| + 22 + if m.value.Str? then 6 * |m.value.text| else 0
  {
    QuoteBound(m.key);
    match m.value
    case Bool(flag) => BoolSize(flag);
    case Int(n) => IntSize(n);
    case Str(text) => QuoteBound(text);
  }

  function Pow10(k: nat): nat { if k == 0 then 1 else 10 * Pow10(k - 1) }

  lemma {:induction false} DigitsLength(n: nat, k: nat)
    requires k > 0 && n < Pow10(k)
    ensures |Digits(n)| <= k
  {
    if n >= 10 {
      DigitsLength(n / 10, k - 1);
    }
  }

  lemma SafeIntLength(n: SafeInt)
    ensures |IntegerText(n)| <= 17 && AsciiText(IntegerText(n))
  {
    assert Pow10(4) == 10000;
    assert Pow10(8) == 1_0000_0000 by { assert Pow10(6) == 1000000; }
    assert Pow10(12) == 1_0000_0000_0000 by { assert Pow10(10) == 100_0000_0000; }
    assert Pow10(16) == 1_0000_0000_0000_0000 by { assert Pow10(14) == 100_0000_0000_0000; }
    DigitsLength(if n < 0 then -n else n, 16);
  }

  // ---------------------------------------------------------------------------------------------
  // Members by key

  function Lookup(members: seq<Member>, key: Text): Option<Json> {
    if members == [] then None
    else if members[0].key == key then Some(members[0].value)
    else Lookup(members[1..], key)
  }

  predicate DistinctMembers(members: seq<Member>) {
    forall i, j :: 0 <= i < j < |members| ==> members[i].key != members[j].key
  }

  lemma {:induction false} LookupAt(members: seq<Member>, i: nat)
    requires DistinctMembers(members) && i < |members|
    ensures Lookup(members, members[i].key) == Some(members[i].value)
  {
    if i > 0 {
      LookupAt(members[1..], i - 1);
    }
  }

  lemma {:induction false} LookupAbsent(members: seq<Member>, key: Text)
    ensures Lookup(members, key).None? <==> forall i :: 0 <= i < |members| ==> members[i].key != key
  {
    if members != [] {
      LookupAbsent(members[1..], key);
      assert forall i :: 1 <= i < |members| ==> members[i] == members[1..][i - 1];
    }
  }

  lemma {:induction false} LookupIndex(members: seq<Member>, key: Text)
    requires Lookup(members, key).Some?
    ensures exists i :: 0 <= i < |members| && members[i] == Member(key, Lookup(members, key).value)
  {
    if members[0].key == key {
      assert members[0] == Member(key, Lookup(members, key).value);
    } else {
      LookupIndex(members[1..], key);
      var i :| 0 <= i < |members| - 1 && members[1..][i] == Member(key, Lookup(members, key).value);
      assert members[i + 1] == members[1..][i];
    }
  }
}

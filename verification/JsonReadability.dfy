/** Two JSON values with the same compact text are the same value, whatever follows the text. */
module JsonReadability {
  import opened JsonText

  lemma Cancel(p: Text, x: Text, q: Text, y: Text)
    requires p + x == q + y && |p| == |q|
    ensures p == q && x == y
  {
    assert p == (p + x)[..|p|] && q == (q + y)[..|q|];
    assert x == (p + x)[|p|..] && y == (q + y)[|q|..];
  }

  // Of two ways to cut a text, the longer head starts with the shorter one.
  lemma Overlap(p: Text, x: Text, q: Text, y: Text)
    requires p + x == q + y && |p| < |q|
    ensures x != [] && x[0] == q[|p|]
  {
    assert (p + x)[|p|] == (q + y)[|p|];
  }

  lemma Assoc(a: Text, b: Text, c: Text)
    ensures a + b + c == a + (b + c)
  {}

  // ---------------------------------------------------------------------------------------------
  // Numerals

  lemma {:induction false} DigitsInjective(m: nat, n: nat)
    requires Digits(m) == Digits(n)
    ensures m == n
  {
    if m >= 10 && n >= 10 {
      Cancel(Digits(m / 10), [0x30 + m % 10], Digits(n / 10), [0x30 + n % 10]);
      assert [0x30 + m % 10][0] == [0x30 + n % 10][0];
      DigitsInjective(m / 10, n / 10);
    } else {
      assert Digits(m)[0] == Digits(n)[0];
    }
  }

  lemma IntegerTextInjective(m: int, n: int)
    requires IntegerText(m) == IntegerText(n)
    ensures m == n
  {
    assert IntegerText(m)[0] == IntegerText(n)[0];
    if m < 0 {
      assert IntegerText(m)[1..] == Digits(-m) && IntegerText(n)[1..] == Digits(-n);
      DigitsInjective(-m, -n);
    } else {
      DigitsInjective(m, n);
    }
  }

  // A numeral is only used where the number is not a safe integer.
  ghost predicate Canonical(v: Json) {
    match v
    case Num(numeral) => forall n: SafeInt :: IntegerText(n) != numeral
    case Arr(items) => forall i :: 0 <= i < |items| ==> Canonical(items[i])
    case Obj(members) => forall i :: 0 <= i < |members| ==> Canonical(members[i].value)
    case _ => true
  }

  // ---------------------------------------------------------------------------------------------
  // Strings

  lemma HexDigits(a: CodeUnit)
    ensures a == 0x1000 * (a / 0x1000) + 0x100 * (a / 0x100 % 0x10) + 0x10 * (a / 0x10 % 0x10) + a % 0x10
  {
    assert a / 0x100 == 0x10 * (a / 0x1000) + a / 0x100 % 0x10;
    assert a / 0x10 == 0x10 * (a / 0x100) + a / 0x10 % 0x10;
  }

  lemma HexEscapeInjective(a: CodeUnit, b: CodeUnit)
    requires HexEscape(a) == HexEscape(b)
    ensures a == b
  {
    var s, t := HexEscape(a), HexEscape(b);
    assert s[2] == t[2] && s[3] == t[3] && s[4] == t[4] && s[5] == t[5];
    HexDigitInjective(a / 0x1000, b / 0x1000);
    HexDigitInjective(a / 0x100 % 0x10, b / 0x100 % 0x10);
    HexDigitInjective(a / 0x10 % 0x10, b / 0x10 % 0x10);
    HexDigitInjective(a % 0x10, b % 0x10);
    HexDigits(a);
    HexDigits(b);
  }

  lemma HexDigitInjective(d: int, e: int)
    requires 0 <= d < 16 && 0 <= e < 16 && HexDigit(d) == HexDigit(e)
    ensures d == e
  {}

  // The head of a text is determined by any text that starts with its piece.
  lemma PieceReadable(a: Text, b: Text, x: Text, y: Text)
    requires a != [] && b != []
    requires Piece(a) + x == Piece(b) + y
    ensures Piece(a) == Piece(b) && x == y && Pair(a) == Pair(b)
    ensures a[0] == b[0] && (Pair(a) ==> a[1] == b[1])
  {
    var p, q := Piece(a), Piece(b);
    assert (p + x)[0] == p[0] && (q + y)[0] == q[0];
    if p[0] == 0x5C {
      assert (p + x)[1] == p[1] && (q + y)[1] == q[1];
    }
    assert |p| == |q|;
    Cancel(p, x, q, y);
    if |p| == 6 {
      HexEscapeInjective(a[0], b[0]);
    }
  }

  // The rest of a string after its opening quote, then any text.
  function EscapedThen(t: Text, x: Text): Text { Escaped(t) + ([0x22] + x) }

  lemma EscapedUnfold(t: Text, x: Text)
    ensures EscapedThen(t, x) == if t == [] then [0x22] + x else Piece(t) + EscapedThen(Rest(t), x)
    ensures EscapedThen(t, x)[0] == if t == [] then 0x22 else Piece(t)[0]
  {
    if t != [] {
      Assoc(Piece(t), Escaped(Rest(t)), [0x22] + x);
    }
  }

  lemma HeadAndRest(t: Text)
    requires t != []
    ensures t == (if Pair(t) then [t[0], t[1]] else [t[0]]) + Rest(t)
  {}

  lemma {:induction false} EscapedReadable(a: Text, b: Text, x: Text, y: Text)
    requires EscapedThen(a, x) == EscapedThen(b, y)
    ensures a == b && x == y
    decreases |a|
  {
    EscapedUnfold(a, x);
    EscapedUnfold(b, y);
    if a != [] {
      PieceReadable(a, b, EscapedThen(Rest(a), x), EscapedThen(Rest(b), y));
      EscapedReadable(Rest(a), Rest(b), x, y);
      HeadAndRest(a);
      HeadAndRest(b);
    } else {
      Cancel([0x22], x, [0x22], y);
    }
  }

  lemma QuoteUnfold(a: Text, x: Text)
    ensures Quote(a) + x == [0x22] + EscapedThen(a, x)
  {
    Assoc([0x22] + Escaped(a), [0x22], x);
    Assoc([0x22], Escaped(a), [0x22] + x);
  }

  lemma QuoteReadable(a: Text, b: Text, x: Text, y: Text)
    requires Quote(a) + x == Quote(b) + y
    ensures a == b && x == y
  {
    QuoteUnfold(a, x);
    QuoteUnfold(b, y);
    Cancel([0x22], EscapedThen(a, x), [0x22], EscapedThen(b, y));
    EscapedReadable(a, b, x, y);
  }

  // ---------------------------------------------------------------------------------------------
  // Values

  // What may follow a value inside a JSON text.
  predicate Boundary(t: Text) { t == [] || !NumberUnit(t[0]) }

  lemma NumeralReadable(a: Numeral, b: Numeral, x: Text, y: Text)
    requires a + x == b + y && Boundary(x) && Boundary(y)
    ensures a == b && x == y
  {
    if |a| < |b| {
      Overlap(a, x, b, y);
    } else if |b| < |a| {
      Overlap(b, y, a, x);
    } else {
      Cancel(a, x, b, y);
    }
  }

  // The first unit of a value's text tells its kind.
  predicate StartsLike(v: Json, u: CodeUnit) {
    match v
    case Null => u == 0x6E
    case Bool(flag) => u == if flag then 0x74 else 0x66
    case Str(_) => u == 0x22
    case Arr(_) => u == 0x5B
    case Obj(_) => u == 0x7B
    case _ => NumberUnit(u)
  }

  lemma FirstUnit(v: Json, x: Text)
    ensures Stringify(v) != [] && StartsLike(v, Stringify(v)[0]) && (Stringify(v) + x)[0] == Stringify(v)[0]
  {}

  // A list after its opening bracket, then any text; and the same after one of its items.
  function ItemsThen(items: seq<Json>, x: Text): Text { Items(items) + ([0x5D] + x) }

  function ItemsTail(items: seq<Json>, x: Text): Text {
    if items == [] then [0x5D] + x else COMMA + ItemsThen(items, x)
  }

  lemma ItemsUnfold(items: seq<Json>, x: Text)
    ensures ItemsThen(items, x) == if items == [] then [0x5D] + x else Stringify(items[0]) + ItemsTail(items[1..], x)
  {
    if |items| > 1 {
      Assoc(Stringify(items[0]) + COMMA, Items(items[1..]), [0x5D] + x);
      Assoc(Stringify(items[0]), COMMA, ItemsThen(items[1..], x));
    }
  }

  function MembersThen(members: seq<Member>, x: Text): Text { Members(members) + ([0x7D] + x) }

  function MembersTail(members: seq<Member>, x: Text): Text {
    if members == [] then [0x7D] + x else COMMA + MembersThen(members, x)
  }

  lemma MembersUnfold(members: seq<Member>, x: Text)
    ensures MembersThen(members, x) == if members == [] then [0x7D] + x else Entry(members[0]) + MembersTail(members[1..], x)
  {
    if |members| > 1 {
      Assoc(Entry(members[0]) + COMMA, Members(members[1..]), [0x7D] + x);
      Assoc(Entry(members[0]), COMMA, MembersThen(members[1..], x));
    }
  }

  lemma EntryUnfold(m: Member, x: Text)
    ensures Entry(m) + x == Quote(m.key) + (COLON + (Stringify(m.value) + x))
    ensures (Entry(m) + x)[0] == 0x22
  {
    Assoc(Quote(m.key) + COLON, Stringify(m.value), x);
    Assoc(Quote(m.key), COLON, Stringify(m.value) + x);
  }

  lemma KeyReadable(m: Member, n: Member, x: Text, y: Text)
    requires Entry(m) + x == Entry(n) + y
    ensures m.key == n.key && Stringify(m.value) + x == Stringify(n.value) + y
  {
    EntryUnfold(m, x);
    EntryUnfold(n, y);
    var p, q := Stringify(m.value) + x, Stringify(n.value) + y;
    QuoteReadable(m.key, n.key, COLON + p, COLON + q);
    Cancel(COLON, p, COLON, q);
  }

  lemma BracketUnfold(v: Json, x: Text)
    ensures v.Arr? ==> Stringify(v) + x == [0x5B] + ItemsThen(v.items, x)
    ensures v.Obj? ==> Stringify(v) + x == [0x7B] + MembersThen(v.members, x)
  {
    match v
    case Arr(items) =>
      Assoc([0x5B] + Items(items), [0x5D], x);
      Assoc([0x5B], Items(items), [0x5D] + x);
    case Obj(members) =>
      Assoc([0x7B] + Members(members), [0x7D], x);
      Assoc([0x7B], Members(members), [0x7D] + x);
    case _ =>
  }

  lemma {:induction false} Readable(u: Json, v: Json, x: Text, y: Text)
    requires Canonical(u) && Canonical(v) && Boundary(x) && Boundary(y)
    requires Stringify(u) + x == Stringify(v) + y
    ensures u == v && x == y
    decreases u, 1
  {
    FirstUnit(u, x);
    FirstUnit(v, y);
    BracketUnfold(u, x);
    BracketUnfold(v, y);
    match u {
      case Int(m) =>
        NumeralReadable(Stringify(u), Stringify(v), x, y);
        if v.Int? { IntegerTextInjective(m, v.value); }
      case Num(_) =>
        NumeralReadable(Stringify(u), Stringify(v), x, y);
      case Str(text) =>
        QuoteReadable(text, v.text, x, y);
      case Arr(items) =>
        Cancel([0x5B], ItemsThen(items, x), [0x5B], ItemsThen(v.items, y));
        ItemsReadable(u, items, v.items, x, y);
      case Obj(members) =>
        Cancel([0x7B], MembersThen(members, x), [0x7B], MembersThen(v.members, y));
        MembersReadable(u, members, v.members, x, y);
      case _ =>
        Cancel(Stringify(u), x, Stringify(v), y);
    }
  }

  lemma {:induction false} ItemsReadable(u: Json, a: seq<Json>, b: seq<Json>, x: Text, y: Text)
    requires forall i :: 0 <= i < |a| ==> Canonical(a[i]) && a[i] < u
    requires forall i :: 0 <= i < |b| ==> Canonical(b[i])
    requires ItemsThen(a, x) == ItemsThen(b, y)
    ensures a == b && x == y
    decreases u, 0, |a|
  {
    ItemsStart(a, b, x, y);
    if a != [] {
      hide *;
      Readable(a[0], b[0], ItemsTail(a[1..], x), ItemsTail(b[1..], y));
      ItemsNext(a[1..], b[1..], x, y);
      if a[1..] != [] {
        ItemsReadable(u, a[1..], b[1..], x, y);
      }
      assert a == [a[0]] + a[1..] && b == [b[0]] + b[1..];
    }
  }

  // Equal list texts agree on whether the list ends here.
  lemma ItemsStart(a: seq<Json>, b: seq<Json>, x: Text, y: Text)
    requires ItemsThen(a, x) == ItemsThen(b, y)
    ensures (a == []) == (b == []) && (a == [] ==> x == y)
    ensures a != [] ==> Stringify(a[0]) + ItemsTail(a[1..], x) == Stringify(b[0]) + ItemsTail(b[1..], y)
    ensures a != [] ==> Boundary(ItemsTail(a[1..], x)) && Boundary(ItemsTail(b[1..], y))
  {
    ItemsUnfold(a, x);
    ItemsUnfold(b, y);
    if a != [] { FirstUnit(a[0], ItemsTail(a[1..], x)); }
    if b != [] { FirstUnit(b[0], ItemsTail(b[1..], y)); }
    if a == [] { Cancel([0x5D], x, [0x5D], y); }
  }

  lemma ItemsNext(a: seq<Json>, b: seq<Json>, x: Text, y: Text)
    requires ItemsTail(a, x) == ItemsTail(b, y)
    ensures (a == []) == (b == []) && (a == [] ==> x == y)
    ensures a != [] ==> ItemsThen(a, x) == ItemsThen(b, y)
  {
    assert ItemsTail(a, x)[0] == ItemsTail(b, y)[0];
    if a == [] {
      Cancel([0x5D], x, [0x5D], y);
    } else {
      Cancel(COMMA, ItemsThen(a, x), COMMA, ItemsThen(b, y));
    }
  }

  lemma {:induction false} MembersReadable(u: Json, a: seq<Member>, b: seq<Member>, x: Text, y: Text)
    requires forall i :: 0 <= i < |a| ==> Canonical(a[i].value) && a[i].value < u
    requires forall i :: 0 <= i < |b| ==> Canonical(b[i].value)
    requires MembersThen(a, x) == MembersThen(b, y)
    ensures a == b && x == y
    decreases u, 0, |a|
  {
    MembersStart(a, b, x, y);
    if a != [] {
      hide *;
      Readable(a[0].value, b[0].value, MembersTail(a[1..], x), MembersTail(b[1..], y));
      MembersNext(a[1..], b[1..], x, y);
      if a[1..] != [] {
        MembersReadable(u, a[1..], b[1..], x, y);
      }
      assert a == [a[0]] + a[1..] && b == [b[0]] + b[1..];
    }
  }

  lemma MembersStart(a: seq<Member>, b: seq<Member>, x: Text, y: Text)
    requires MembersThen(a, x) == MembersThen(b, y)
    ensures (a == []) == (b == []) && (a == [] ==> x == y)
    ensures a != [] ==> a[0].key == b[0].key &&
                        Stringify(a[0].value) + MembersTail(a[1..], x) == Stringify(b[0].value) + MembersTail(b[1..], y)
    ensures a != [] ==> Boundary(MembersTail(a[1..], x)) && Boundary(MembersTail(b[1..], y))
  {
    MembersUnfold(a, x);
    MembersUnfold(b, y);
    if a != [] { EntryUnfold(a[0], MembersTail(a[1..], x)); }
    if b != [] { EntryUnfold(b[0], MembersTail(b[1..], y)); }
    if a == [] {
      Cancel([0x7D], x, [0x7D], y);
    } else {
      KeyReadable(a[0], b[0], MembersTail(a[1..], x), MembersTail(b[1..], y));
    }
  }

  lemma MembersNext(a: seq<Member>, b: seq<Member>, x: Text, y: Text)
    requires MembersTail(a, x) == MembersTail(b, y)
    ensures (a == []) == (b == []) && (a == [] ==> x == y)
    ensures a != [] ==> MembersThen(a, x) == MembersThen(b, y)
  {
    assert MembersTail(a, x)[0] == MembersTail(b, y)[0];
    if a == [] {
      Cancel([0x7D], x, [0x7D], y);
    } else {
      Cancel(COMMA, MembersThen(a, x), COMMA, MembersThen(b, y));
    }
  }

  // JSON.stringify is injective on JSON data.
  lemma StringifyInjective(u: Json, v: Json)
    requires Canonical(u) && Canonical(v)
    requires Stringify(u) == Stringify(v)
    ensures u == v
  {
    assert Stringify(u) + [] == Stringify(u) && Stringify(v) + [] == Stringify(v);
    Readable(u, v, [], []);
  }
}

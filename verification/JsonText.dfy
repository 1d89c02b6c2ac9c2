/** Text as the program sees it (UTF-16 code units), its UTF-8 encoding and its compact JSON form. */
module JsonText {

  type CodeUnit = x: int | 0 <= x < 0x10000
  type Byte = x: int | 0 <= x < 0x100
  type Text = seq<CodeUnit>

  // A literal of the source, one code unit per character.
  function U(s: string): (t: Text)
    ensures |t| == |s|
    ensures forall i :: 0 <= i < |s| ==> t[i] == Unit(s[i])
  {
    seq(|s|, i requires 0 <= i < |s| => Unit(s[i]))
  }

  function Unit(c: char): CodeUnit {
    if c as int < 0x10000 then c as int else 0xFFFD
  }

  // ---------------------------------------------------------------------------------------------
  // UTF-8, section 3 of RFC 3629, with the encoder's replacement character for a lone surrogate.

  predicate High(u: CodeUnit) { 0xD800 <= u < 0xDC00 }

  predicate Low(u: CodeUnit) { 0xDC00 <= u < 0xE000 }

  predicate Surrogate(u: CodeUnit) { High(u) || Low(u) }

  predicate Pair(t: Text) { |t| >= 2 && High(t[0]) && Low(t[1]) }

  function Scalar(high: CodeUnit, low: CodeUnit): (cp: int)
    requires High(high) && Low(low)
    ensures 0x10000 <= cp < 0x110000
  {
    0x10000 + (high - 0xD800) * 0x400 + (low - 0xDC00)
  }

  function EncodeScalar(cp: int): (bytes: seq<Byte>)
    requires 0 <= cp < 0x110000
    ensures |bytes| == if cp < 0x80 then 1 else if cp < 0x800 then 2 else if cp < 0x10000 then 3 else 4
  {
    if cp < 0x80 then [cp]
    else if cp < 0x800 then [0xC0 + cp / 0x40, 0x80 + cp % 0x40]
    else if cp < 0x10000 then [0xE0 + cp / 0x1000, 0x80 + cp / 0x40 % 0x40, 0x80 + cp % 0x40]
    else [0xF0 + cp / 0x40000, 0x80 + cp / 0x1000 % 0x40, 0x80 + cp / 0x40 % 0x40, 0x80 + cp % 0x40]
  }

  function Utf8(t: Text): seq<Byte> {
    if t == [] then []
    else if Pair(t) then EncodeScalar(Scalar(t[0], t[1])) + Utf8(t[2..])
    else if Surrogate(t[0]) then EncodeScalar(0xFFFD) + Utf8(t[1..])
    else EncodeScalar(t[0]) + Utf8(t[1..])
  }

  function Bytes(t: Text): nat { |Utf8(t)| }

  // Cutting a text anywhere but inside a surrogate pair cuts its encoding.
  lemma {:induction false} Utf8Concat(a: Text, b: Text)
    requires a == [] || b == [] || !(High(a[|a| - 1]) && Low(b[0]))
    ensures Utf8(a + b) == Utf8(a) + Utf8(b)
  {
    hide EncodeScalar, Scalar;
    if a == [] {
      assert a + b == b;
    } else if b == [] {
      assert a + b == a;
    } else if Pair(a) {
      CutAfter(a, b, 2);
      assert Pair(a + b);
      Utf8Concat(a[2..], b);
    } else {
      CutAfter(a, b, 1);
      assert !Pair(a + b) by { if |a| > 1 { assert (a + b)[1] == a[1]; } }
      Utf8Concat(a[1..], b);
    }
  }

  lemma CutAfter(a: Text, b: Text, n: nat)
    requires n <= |a|
    ensures (a + b)[n..] == a[n..] + b
  {}

  // No surrogate pair can form across either edge.
  predicate Sealed(t: Text) { t == [] || (!Low(t[0]) && !High(t[|t| - 1])) }

  predicate AsciiText(t: Text) { forall i :: 0 <= i < |t| ==> t[i] < 0x80 }

  lemma {:induction false} AsciiBytes(t: Text)
    requires AsciiText(t)
    ensures Bytes(t) == |t|
  {
    if t != [] {
      AsciiBytes(t[1..]);
    }
  }

  // ---------------------------------------------------------------------------------------------
  // JSON values; a finite number outside the safe integers is carried by its numeral.

  const MAX_SAFE_INTEGER := 0x1F_FFFF_FFFF_FFFF

  type SafeInt = n: int | -MAX_SAFE_INTEGER <= n <= MAX_SAFE_INTEGER

  predicate NumberUnit(u: CodeUnit) {
    0x30 <= u <= 0x39 || u == 0x2B || u == 0x2D || u == 0x2E || u == 0x45 || u == 0x65
  }

  type Numeral = t: Text | t != [] && forall i :: 0 <= i < |t| ==> NumberUnit(t[i]) witness [0x30]

  datatype Json =
    | Null
    | Bool(flag: bool)
    | Int(value: SafeInt)
    | Num(numeral: Numeral)
    | Str(text: Text)
    | Arr(items: seq<Json>)
    | Obj(members: seq<Member>)

  datatype Member = Member(key: Text, value: Json)

  predicate IsScalar(v: Json) { !v.Arr? && !v.Obj? }

  function Digits(n: nat): (t: Text)
    ensures t != [] && forall i :: 0 <= i < |t| ==> 0x30 <= t[i] <= 0x39
  {
    if n < 10 then [0x30 + n] else Digits(n / 10) + [0x30 + n % 10]
  }

  function IntegerText(n: int): Numeral {
    if n < 0 then [0x2D] + Digits(-n) else Digits(n)
  }

  function HexDigit(d: int): (u: CodeUnit)
    requires 0 <= d < 16
    ensures 0x30 <= u <= 0x39 || 0x61 <= u <= 0x66
  {
    if d < 10 then 0x30 + d else 0x57 + d
  }

  function HexEscape(u: CodeUnit): Text {
    [0x5C, 0x75, HexDigit(u / 0x1000), HexDigit(u / 0x100 % 0x10), HexDigit(u / 0x10 % 0x10), HexDigit(u % 0x10)]
  }

  // The letter of a two-unit escape (section 7 of RFC 8259), or 0.
  function ShortEscape(u: CodeUnit): CodeUnit {
    if u == 0x22 then 0x22 else if u == 0x5C then 0x5C
    else if u == 0x08 then 0x62 else if u == 0x09 then 0x74 else if u == 0x0A then 0x6E
    else if u == 0x0C then 0x66 else if u == 0x0D then 0x72 else 0
  }

  // What a string escape emits for the first unit (or surrogate pair) of a text.
  function Piece(t: Text): (p: Text)
    requires t != []
    ensures p != [] && p[0] != 0x22 && Sealed(p)
  {
    if Pair(t) then t[..2]
    else if ShortEscape(t[0]) != 0 then [0x5C, ShortEscape(t[0])]
    else if t[0] < 0x20 || Surrogate(t[0]) then HexEscape(t[0])
    else [t[0]]
  }

  function Rest(t: Text): (r: Text)
    requires t != []
    ensures |r| < |t|
  {
    if Pair(t) then t[2..] else t[1..]
  }

  function Escaped(t: Text): Text
    decreases |t|
  {
    if t == [] then [] else Piece(t) + Escaped(Rest(t))
  }

  function Quote(t: Text): Text { [0x22] + Escaped(t) + [0x22] }

  const COMMA: Text := [0x2C]
  const COLON: Text := [0x3A]

  // The compact form, sections 3 to 7 of RFC 8259.
  function Stringify(v: Json): Text {
    match v
    case Null => U("null")
    case Bool(flag) => if flag then U("true") else U("false")
    case Int(n) => IntegerText(n)
    case Num(numeral) => numeral
    case Str(text) => Quote(text)
    case Arr(items) => [0x5B] + Items(items) + [0x5D]
    case Obj(members) => [0x7B] + Members(members) + [0x7D]
  }

  function Items(items: seq<Json>): Text {
    if items == [] then []
    else if |items| == 1 then Stringify(items[0])
    else Stringify(items[0]) + COMMA + Items(items[1..])
  }

  function Entry(m: Member): Text { Quote(m.key) + COLON + Stringify(m.value) }

  function Members(members: seq<Member>): Text {
    if members == [] then []
    else if |members| == 1 then Entry(members[0])
    else Entry(members[0]) + COMMA + Members(members[1..])
  }
}

/** Sorting by a total order, and the canonical order it gives to a bag of elements. */
module Sorting {
  import opened JsonText
  import opened Sequences

  ghost predicate Total<T(!new)>(le: (T, T) -> bool) {
    (forall x, y :: le(x, y) || le(y, x)) && (forall x, y, z :: le(x, y) && le(y, z) ==> le(x, z))
  }

  ghost predicate Ordered<T>(s: seq<T>, le: (T, T) -> bool) {
    forall i, j :: 0 <= i < j < |s| ==> le(s[i], s[j])
  }

  function Insert<T>(x: T, s: seq<T>, le: (T, T) -> bool): seq<T> {
    if s == [] || le(x, s[0]) then [x] + s else [s[0]] + Insert(x, s[1..], le)
  }

  function Sort<T>(s: seq<T>, le: (T, T) -> bool): seq<T> {
    if s == [] then [] else Insert(s[0], Sort(s[1..], le), le)
  }

  lemma {:induction false} InsertBag<T>(x: T, s: seq<T>, le: (T, T) -> bool)
    ensures multiset(Insert(x, s, le)) == multiset(s) + multiset{x}
    ensures forall y :: y in Insert(x, s, le) ==> y == x || y in s
  {
    if s != [] && !le(x, s[0]) {
      InsertBag(x, s[1..], le);
      assert s == [s[0]] + s[1..];
    }
  }

  lemma {:induction false} InsertOrdered<T(!new)>(x: T, s: seq<T>, le: (T, T) -> bool)
    requires Total(le) && Ordered(s, le)
    ensures Ordered(Insert(x, s, le), le) && multiset(Insert(x, s, le)) == multiset(s) + multiset{x}
  {
    InsertBag(x, s, le);
    if s != [] && !le(x, s[0]) {
      InsertOrdered(x, s[1..], le);
      InsertBag(x, s[1..], le);
      var t := Insert(x, s[1..], le);
      forall i | 0 <= i < |t| ensures le(s[0], t[i]) {
        assert t[i] in t;
      }
    } else if s != [] {
      forall j | 0 <= j < |s| ensures le(x, s[j]) {
        assert j > 0 ==> le(s[0], s[j]);
      }
    }
  }

  lemma {:induction false} SortOrdered<T(!new)>(s: seq<T>, le: (T, T) -> bool)
    requires Total(le)
    ensures Ordered(Sort(s, le), le) && multiset(Sort(s, le)) == multiset(s)
  {
    if s != [] {
      SortOrdered(s[1..], le);
      InsertOrdered(s[0], Sort(s[1..], le), le);
      assert s == [s[0]] + s[1..];
    }
  }

  // Two ordered sequences with the same elements are the same, when the order tells the elements apart.
  lemma {:induction false} OrderedUnique<T(!new)>(a: seq<T>, b: seq<T>, le: (T, T) -> bool)
    requires Ordered(a, le) && Ordered(b, le) && multiset(a) == multiset(b)
    requires forall x, y :: x in a && y in a && le(x, y) && le(y, x) ==> x == y
    ensures a == b
  {
    hide Ordered;
    SameLength(a, b);
    if a != [] {
      OrderedHeads(a, b, le);
      TailElements(a);
      TailElements(b);
      OrderedTail(a, le);
      OrderedTail(b, le);
      OrderedUnique(a[1..], b[1..], le);
      HeadAndTail(a, b);
    }
  }

  lemma HeadAndTail<T>(a: seq<T>, b: seq<T>)
    requires a != [] && b != [] && a[0] == b[0] && a[1..] == b[1..]
    ensures a == b
  {
    assert a == [a[0]] + a[1..] && b == [b[0]] + b[1..];
  }

  lemma OrderedHeads<T(!new)>(a: seq<T>, b: seq<T>, le: (T, T) -> bool)
    requires Ordered(a, le) && Ordered(b, le) && multiset(a) == multiset(b) && a != [] && b != []
    requires forall x, y :: x in a && y in a && le(x, y) && le(y, x) ==> x == y
    ensures a[0] == b[0]
  {
    assert a[0] in multiset(b) && b[0] in multiset(a);
    var i :| 0 <= i < |b| && b[i] == a[0];
    var j :| 0 <= j < |a| && a[j] == b[0];
    if i > 0 && j > 0 { assert le(b[0], b[i]) && le(a[0], a[j]); }
  }

  lemma SameLength<T>(a: seq<T>, b: seq<T>)
    requires multiset(a) == multiset(b)
    ensures |a| == |b|
  {
    assert |a| == |multiset(a)| && |b| == |multiset(b)|;
  }

  lemma TailElements<T>(a: seq<T>)
    requires a != []
    ensures multiset(a[1..]) == multiset(a) - multiset{a[0]}
    ensures forall x :: x in a[1..] ==> x in a
  {
    assert a == [a[0]] + a[1..];
  }

  lemma OrderedTail<T>(a: seq<T>, le: (T, T) -> bool)
    requires Ordered(a, le) && a != []
    ensures Ordered(a[1..], le)
  {}

  /** Sorting forgets the order in which the elements came. */
  lemma SortCanonical<T(!new)>(a: seq<T>, b: seq<T>, le: (T, T) -> bool)
    requires Total(le) && multiset(a) == multiset(b)
    requires forall x, y :: x in a && y in a && le(x, y) && le(y, x) ==> x == y
    ensures Sort(a, le) == Sort(b, le)
  {
    SortOrdered(a, le);
    SortOrdered(b, le);
    forall x | x in Sort(a, le) ensures x in a {
      assert x in multiset(Sort(a, le));
    }
    OrderedUnique(Sort(a, le), Sort(b, le), le);
  }

  // ---------------------------------------------------------------------------------------------
  // The distinct elements, in order of first use

  function Dedupe<T(==)>(s: seq<T>): seq<T> {
    if s == [] then []
    else
      var n := |s| - 1;
      var rest := Dedupe(s[..n]);
      if s[n] in rest then rest else rest + [s[n]]
  }

  lemma {:induction false} DedupeBag<T>(s: seq<T>)
    ensures multiset(Dedupe(s)) == multiset(set x | x in s)
    ensures forall x :: x in Dedupe(s) <==> x in s
  {
    if s == [] {
      assert (set x | x in s) == {};
    } else {
      var n := |s| - 1;
      DedupeBag(s[..n]);
      assert forall x :: x in s <==> x in s[..n] || x == s[n];
      var a, b := set x | x in s[..n], set x | x in s;
      assert b == a + {s[n]};
    }
  }

  lemma SameElements<T>(a: seq<T>, b: seq<T>)
    requires multiset(a) == multiset(b)
    ensures forall x :: x in a <==> x in b
  {
    assert forall x :: x in a <==> x in multiset(a);
    assert forall x :: x in b <==> x in multiset(b);
  }

  // A sequence that holds each element of a set once repeats none.
  lemma OnceDistinct<T>(s: seq<T>, elements: set<T>)
    requires multiset(s) == multiset(elements)
    ensures Distinct(s)
  {
    forall i, j | 0 <= i < j < |s| ensures s[i] != s[j] {
      var a, b := s[..j], s[j..];
      assert s == a + b && a[i] == s[i] && b[0] == s[j];
      assert multiset(a)[s[i]] >= 1 && multiset(b)[s[j]] >= 1;
      assert multiset(s)[s[j]] == multiset(a)[s[j]] + multiset(b)[s[j]] <= 1;
    }
  }

  // Every element of a is one of b.
  predicate Covered<T(==)>(a: seq<T>, b: seq<T>) { forall i :: 0 <= i < |a| ==> a[i] in b }

  /** Sorting the distinct elements puts each once, in order. */
  lemma DedupeOrdered<T(!new)>(a: seq<T>, le: (T, T) -> bool)
    requires Total(le)
    ensures Ordered(Sort(Dedupe(a), le), le) && Distinct(Sort(Dedupe(a), le))
  {
    hide Sort, Dedupe, Ordered, Total, Distinct;
    DedupeBag(a);
    SortOrdered(Dedupe(a), le);
    OnceDistinct(Sort(Dedupe(a), le), set x | x in a);
  }

  /** Sorting the distinct elements gives one form to every sequence with the same elements. */
  lemma DedupeSorted<T(!new)>(a: seq<T>, b: seq<T>, le: (T, T) -> bool)
    requires Total(le) && forall x, y :: x in a && y in a && le(x, y) && le(y, x) ==> x == y
    ensures Sort(Dedupe(a), le) == Sort(Dedupe(b), le) <==> Covered(a, b) && Covered(b, a)
    ensures forall x :: x in Sort(Dedupe(a), le) <==> x in a
  {
    hide Sort, Dedupe, Ordered, Total;
    DedupeBag(a);
    DedupeBag(b);
    SortOrdered(Dedupe(a), le);
    SortOrdered(Dedupe(b), le);
    SameElements(Dedupe(a), Sort(Dedupe(a), le));
    SameElements(Dedupe(b), Sort(Dedupe(b), le));
    if Covered(a, b) && Covered(b, a) {
      assert (set x | x in a) == (set x | x in b);
      SortCanonical(Dedupe(a), Dedupe(b), le);
    }
  }

  // ---------------------------------------------------------------------------------------------
  // The order of strings: by code unit

  predicate TextLe(a: Text, b: Text) {
    a == [] || (b != [] && (a[0] < b[0] || (a[0] == b[0] && TextLe(a[1..], b[1..]))))
  }

  lemma {:induction false} TextLeAntisymmetric(a: Text, b: Text)
    requires TextLe(a, b) && TextLe(b, a)
    ensures a == b
  {
    if a != [] {
      TextLeAntisymmetric(a[1..], b[1..]);
      assert a == [a[0]] + a[1..] && b == [b[0]] + b[1..];
    }
  }

  lemma {:induction false} TextLeTotal(a: Text, b: Text)
    ensures TextLe(a, b) || TextLe(b, a)
  {
    if a != [] && b != [] {
      TextLeTotal(a[1..], b[1..]);
    }
  }

  lemma {:induction false} TextLeTransitive(a: Text, b: Text, c: Text)
    requires TextLe(a, b) && TextLe(b, c)
    ensures TextLe(a, c)
  {
    if a != [] && a[0] == b[0] && b[0] == c[0] {
      TextLeTransitive(a[1..], b[1..], c[1..]);
    }
  }

  lemma TextOrder()
    ensures Total(TextLe)
  {
    forall a, b ensures TextLe(a, b) || TextLe(b, a) { TextLeTotal(a, b); }
    forall a, b, c | TextLe(a, b) && TextLe(b, c) ensures TextLe(a, c) { TextLeTransitive(a, b, c); }
  }
}

/** Lists without repetition, and lists of findings collected entry by entry. */
module Sequences {
  ghost predicate Distinct<T>(s: seq<T>) { forall i, j :: 0 <= i < j < |s| ==> s[i] != s[j] }

  lemma DistinctGrow<T>(s: seq<T>, x: T)
    ensures Distinct(s + [x]) <==> Distinct(s) && x !in s
  {
    if Distinct(s + [x]) {
      forall i | 0 <= i < |s| ensures s[i] != x {
        assert (s + [x])[i] == s[i] && (s + [x])[|s|] == x;
      }
      forall i, j | 0 <= i < j < |s| ensures s[i] != s[j] {
        assert (s + [x])[i] == s[i] && (s + [x])[j] == s[j];
      }
    }
  }

  /** What a rule finds at each entry, given the entries before it. */
  ghost function Collected<T, U>(s: seq<T>, rule: (seq<T>, T) -> seq<U>): seq<U> {
    if s == [] then []
    else
      var n := |s| - 1;
      Collected(s[..n], rule) + rule(s[..n], s[n])
  }

  lemma CollectedStep<T, U>(s: seq<T>, rule: (seq<T>, T) -> seq<U>, k: nat)
    requires k < |s|
    ensures Collected(s[..k + 1], rule) == Collected(s[..k], rule) + rule(s[..k], s[k])
  {
    assert s[..k + 1][..k] == s[..k];
  }

  lemma CollectedGrow<T, U>(s: seq<T>, x: T, rule: (seq<T>, T) -> seq<U>)
    ensures Collected(s + [x], rule) == Collected(s, rule) + rule(s, x)
  {
    assert (s + [x])[..|s|] == s;
  }

  lemma CollectedWhole<T, U>(s: seq<T>, rule: (seq<T>, T) -> seq<U>)
    ensures Collected(s[..|s|], rule) == Collected(s, rule)
  {
    assert s[..|s|] == s;
  }

  lemma SameFindings<T, U>(s: seq<T>, rule: (seq<T>, T) -> seq<U>, n: nat)
    requires n <= |s|
    ensures forall k :: 0 <= k < n ==> rule(s[..n][..k], s[..n][k]) == rule(s[..k], s[k])
  {
    forall k | 0 <= k < n ensures rule(s[..n][..k], s[..n][k]) == rule(s[..k], s[k]) {
      assert s[..n][..k] == s[..k];
    }
  }

  /** A finding is collected exactly when some entry has it. */
  lemma {:induction false} CollectedFrom<T, U>(s: seq<T>, rule: (seq<T>, T) -> seq<U>, x: U)
    ensures x in Collected(s, rule) <==> exists k :: 0 <= k < |s| && x in rule(s[..k], s[k])
  {
    if s != [] {
      var n := |s| - 1;
      CollectedFrom(s[..n], rule, x);
      SameFindings(s, rule, n);
    }
  }

  lemma {:induction false} CollectedNothing<T, U>(s: seq<T>, rule: (seq<T>, T) -> seq<U>)
    ensures Collected(s, rule) == [] <==> forall k :: 0 <= k < |s| ==> rule(s[..k], s[k]) == []
  {
    if s != [] {
      var n := |s| - 1;
      CollectedNothing(s[..n], rule);
      SameFindings(s, rule, n);
    }
  }
}

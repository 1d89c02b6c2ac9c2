/** Chains of a partial parent function: where they end, and the cycles they may run into. */
module ParentChains {
  import opened Options
  import opened JsonText

  type Parents = map<Text, Text>

  function Iter(next: Parents, x: Text, n: nat): Option<Text> {
    if n == 0 then Some(x)
    else
      var y :- Iter(next, x, n - 1);
      if y in next then Some(next[y]) else None
  }

  ghost predicate Reaches(next: Parents, x: Text, y: Text) { exists n: nat :: Iter(next, x, n) == Some(y) }

  ghost predicate Ends(next: Parents, x: Text) { exists n: nat :: Iter(next, x, n).None? }

  ghost predicate OnCycle(next: Parents, x: Text) { exists n: nat :: n > 0 && Iter(next, x, n) == Some(x) }

  ghost predicate Closed(next: Parents, s: set<Text>) { forall x :: x in s && x in next ==> next[x] in s }

  lemma {:induction false} IterAdd(next: Parents, x: Text, m: nat, n: nat)
    ensures Iter(next, x, m + n) == if Iter(next, x, m).Some? then Iter(next, Iter(next, x, m).value, n) else None
  {
    if n > 0 {
      IterAdd(next, x, m, n - 1);
    }
  }

  // A chain that is defined for n steps is defined for fewer.
  lemma IterShorter(next: Parents, x: Text, m: nat, n: nat)
    requires m <= n && Iter(next, x, n).Some?
    ensures Iter(next, x, m).Some?
  {
    IterAdd(next, x, m, n - m);
  }

  lemma {:induction false} ClosedIter(next: Parents, s: set<Text>, x: Text, n: nat)
    requires Closed(next, s) && x in s && Iter(next, x, n).Some?
    ensures Iter(next, x, n).value in s
  {
    if n > 0 {
      ClosedIter(next, s, x, n - 1);
    }
  }

  lemma ClosedReaches(next: Parents, s: set<Text>, x: Text, y: Text)
    requires Closed(next, s) && x in s && y !in s
    ensures !Reaches(next, x, y)
  {
    forall n: nat | Iter(next, x, n).Some? ensures Iter(next, x, n).value in s {
      ClosedIter(next, s, x, n);
    }
  }

  // An id whose chain stays in a set that it is not in itself is on no cycle.
  lemma NotOnCycle(next: Parents, s: set<Text>, x: Text)
    requires Closed(next, s) && x !in s && (x in next ==> next[x] in s)
    ensures !OnCycle(next, x)
  {
    if OnCycle(next, x) {
      var n: nat :| n > 0 && Iter(next, x, n) == Some(x);
      IterAdd(next, x, 1, n - 1);
      assert Iter(next, x, 1) == if x in next then Some(next[x]) else None by { assert Iter(next, x, 0) == Some(x); }
      ClosedReaches(next, s, next[x], x);
    }
  }

  lemma ReachesStep(next: Parents, x: Text, y: Text)
    requires Reaches(next, x, y) && y in next
    ensures Reaches(next, x, next[y])
  {
    var n: nat :| Iter(next, x, n) == Some(y);
    assert Iter(next, x, n + 1) == Some(next[y]);
  }

  lemma ReachesTrans(next: Parents, x: Text, y: Text, z: Text)
    requires Reaches(next, x, y) && Reaches(next, y, z)
    ensures Reaches(next, x, z)
  {
    var m: nat :| Iter(next, x, m) == Some(y);
    var n: nat :| Iter(next, y, n) == Some(z);
    IterAdd(next, x, m, n);
  }

  lemma {:induction false} CycleIter(next: Parents, x: Text, p: nat, n: nat)
    requires p > 0 && Iter(next, x, p) == Some(x)
    ensures Iter(next, x, n).Some?
  {
    if n >= p {
      CycleIter(next, x, p, n - p);
      IterAdd(next, x, p, n - p);
    } else {
      IterShorter(next, x, n, p);
    }
  }

  // A chain that runs into a cycle never ends.
  lemma CycleNeverEnds(next: Parents, x: Text, y: Text)
    requires Reaches(next, x, y) && OnCycle(next, y)
    ensures !Ends(next, x)
  {
    var m: nat :| Iter(next, x, m) == Some(y);
    var p: nat :| p > 0 && Iter(next, y, p) == Some(y);
    forall n: nat ensures Iter(next, x, n).Some? {
      CycleIter(next, y, p, n);
      IterAdd(next, x, m, n);
      IterShorter(next, x, n, m + n);
    }
  }

  // ---------------------------------------------------------------------------------------------
  // Walked paths

  ghost predicate Path(next: Parents, path: seq<Text>) {
    (forall i :: 0 <= i < |path| - 1 ==> path[i] in next && next[path[i]] == path[i + 1]) &&
    forall i, j :: 0 <= i < j < |path| ==> path[i] != path[j]
  }

  ghost function Elements(path: seq<Text>): (s: set<Text>)
    ensures forall x :: x in s <==> x in path
  {
    set x | x in path
  }

  lemma PathExtend(next: Parents, path: seq<Text>, x: Text)
    requires Path(next, path) && x !in path
    requires path != [] ==> path[|path| - 1] in next && next[path[|path| - 1]] == x
    ensures Path(next, path + [x]) && Elements(path + [x]) == Elements(path) + {x}
  {}

  lemma {:induction false} PathReaches(next: Parents, path: seq<Text>, i: nat, j: nat)
    requires Path(next, path) && i <= j < |path|
    ensures Iter(next, path[i], j - i) == Some(path[j])
  {
    if i < j {
      PathReaches(next, path, i, j - 1);
    }
  }

  // The part of a path behind position i is closed when its end leads back into it, or out of the map.
  lemma SuffixClosed(next: Parents, path: seq<Text>, i: nat, s: set<Text>)
    requires Path(next, path) && i <= |path| && Closed(next, s)
    requires path != [] && path[|path| - 1] in next ==> next[path[|path| - 1]] in s + Elements(path[i..])
    ensures Closed(next, s + Elements(path[i..]))
  {
    forall x | x in path[i..] && x in next ensures next[x] in s + Elements(path[i..]) {
      var j :| i <= j < |path| && path[j] == x;
      if j + 1 < |path| { assert path[i..][j + 1 - i] == path[j + 1]; }
    }
  }

  // A walked id before position i is on no cycle when everything from i on is closed.
  lemma TailOffCycle(next: Parents, path: seq<Text>, i: nat, s: set<Text>, j: nat)
    requires Path(next, path) && j < i <= |path| && Closed(next, s) && path[j] !in s
    requires path[|path| - 1] in next ==> next[path[|path| - 1]] in s + Elements(path[i..])
    ensures !OnCycle(next, path[j])
  {
    hide Closed, OnCycle;
    var rest := s + Elements(path[j + 1..]);
    assert path[i..] == path[j + 1..][i - j - 1..];
    SuffixClosed(next, path, j + 1, s);
    assert path[j] !in path[j + 1..];
    if j + 1 < |path| { assert path[j + 1..][0] == path[j + 1]; }
    hide Path;
    NotOnCycle(next, rest, path[j]);
  }

  // A walk that meets an id of its own path again has found a cycle.
  lemma PathMeetsItself(next: Parents, path: seq<Text>, x: Text)
    requires Path(next, path) && path != [] && x in path
    requires path[|path| - 1] in next && next[path[|path| - 1]] == x
    ensures OnCycle(next, x)
  {
    var i :| 0 <= i < |path| && path[i] == x;
    PathReaches(next, path, i, |path| - 1);
    assert Iter(next, x, |path| - i) == Some(x);
  }

  // In a finite map every chain ends or runs into a cycle.
  lemma ChainOutcome(next: Parents, path: seq<Text>, known: set<Text>) returns (y: Text)
    requires Path(next, path) && path != [] && (forall z :: z in path ==> z in known) && Closed(next, known)
    ensures y in known && Reaches(next, path[0], y) && (y !in next || OnCycle(next, y))
    decreases known - Elements(path)
  {
    y := path[|path| - 1];
    PathReaches(next, path, 0, |path| - 1);
    if y in next {
      if next[y] in path {
        PathMeetsItself(next, path, next[y]);
        ReachesStep(next, path[0], y);
        y := next[y];
      } else {
        PathExtend(next, path, next[y]);
        y := ChainOutcome(next, path + [next[y]], known);
      }
    }
  }

  lemma EndReached(next: Parents, x: Text, y: Text)
    requires Reaches(next, x, y) && y !in next
    ensures Ends(next, x)
  {
    var n: nat :| Iter(next, x, n) == Some(y);
    assert Iter(next, x, n + 1).None?;
  }

  lemma {:induction false} LoneIter(next: Parents, x: Text, n: nat)
    requires x !in next && Iter(next, x, n).Some?
    ensures Iter(next, x, n) == Some(x)
  {
    if n > 0 {
      IterAdd(next, x, 1, n - 1);
    }
  }
}

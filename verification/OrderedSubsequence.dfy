/** The greedy scan of required commands: scripts/fg6-local-no-cloud-readback.ts, isOrderedSubsequence. */
module OrderedSubsequence {

  ghost predicate Increasing(places: seq<nat>) { forall i, j :: 0 <= i < j < |places| ==> places[i] < places[j] }

  ghost predicate Embedding<T>(a: seq<T>, b: seq<T>, places: seq<nat>) {
    |places| == |a| && Increasing(places) && forall i :: 0 <= i < |a| ==> places[i] < |b| && b[places[i]] == a[i]
  }

  /** The elements of a occur in b, in the same order. */
  ghost predicate Subsequence<T>(a: seq<T>, b: seq<T>) { exists places :: Embedding(a, b, places) }

  // One more element of b serves only as the last element of a.
  lemma SubsequenceStep<T>(a: seq<T>, b: seq<T>, x: T)
    ensures Subsequence(a, b + [x]) <==>
            Subsequence(a, b) || (a != [] && a[|a| - 1] == x && Subsequence(a[..|a| - 1], b))
  {
    if Subsequence(a, b) {
      var places: seq<nat> :| Embedding(a, b, places);
      assert Embedding(a, b + [x], places);
    }
    if a != [] && a[|a| - 1] == x && Subsequence(a[..|a| - 1], b) {
      var places: seq<nat> :| Embedding(a[..|a| - 1], b, places);
      assert Embedding(a, b + [x], places + [|b|]);
    }
    if Subsequence(a, b + [x]) {
      var places: seq<nat> :| Embedding(a, b + [x], places);
      if a == [] || places[|a| - 1] < |b| {
        assert Embedding(a, b, places);
      } else {
        assert Embedding(a[..|a| - 1], b, places[..|a| - 1]);
      }
    }
  }

  lemma SubsequencePrefix<T>(a: seq<T>, b: seq<T>, k: nat)
    requires k <= |a| && Subsequence(a, b)
    ensures Subsequence(a[..k], b)
  {
    var places: seq<nat> :| Embedding(a, b, places);
    assert Embedding(a[..k], b, places[..k]);
  }

  // The scan's cursor is the longest prefix of the required commands found so far.
  ghost predicate Longest<T>(required: seq<T>, seen: seq<T>, cursor: nat) {
    cursor <= |required| && Subsequence(required[..cursor], seen) &&
    (cursor < |required| ==> !Subsequence(required[..cursor + 1], seen))
  }

  lemma BeyondAbsent<T>(a: seq<T>, b: seq<T>, k: nat)
    requires k <= |a| && !Subsequence(a[..k], b)
    ensures !Subsequence(a, b)
  {
    if Subsequence(a, b) {
      SubsequencePrefix(a, b, k);
    }
  }

  lemma LongestStart<T>(required: seq<T>)
    ensures Longest(required, [], 0)
  {
    assert Embedding(required[..0], [], []);
    if required != [] {
      forall places: seq<nat> ensures !Embedding(required[..1], [], places) {
        assert |places| == 1 ==> places[0] >= 0;
      }
    }
  }

  lemma LongestStep<T>(required: seq<T>, seen: seq<T>, x: T, cursor: nat)
    requires Longest(required, seen, cursor)
    ensures Longest(required, seen + [x], if cursor < |required| && x == required[cursor] then cursor + 1 else cursor)
  {
    SubsequenceStep(required[..cursor], seen, x);
    if cursor < |required| {
      var next := required[..cursor + 1];
      assert next[..cursor] == required[..cursor];
      SubsequenceStep(next, seen, x);
      if x == required[cursor] && cursor + 1 < |required| {
        var beyond := required[..cursor + 2];
        assert beyond[..cursor + 1] == next;
        SubsequenceStep(beyond, seen, x);
        BeyondAbsent(beyond, seen, cursor + 1);
      }
    }
  }

  /** True exactly when the required commands occur in order; an empty requirement still needs one command. */
  method IsOrderedSubsequence<T(==)>(commands: seq<T>, required: seq<T>) returns (found: bool)
    ensures found <==> commands != [] && Subsequence(required, commands)
    ensures required != [] ==> (found <==> Subsequence(required, commands))
  {
    var cursor := 0;
    LongestStart(required);
    assert commands[..0] == [];
    for i := 0 to |commands|
      invariant Longest(required, commands[..i], cursor) && (cursor < |required| || (i == 0 && required == []))
    {
      assert commands[..i + 1] == commands[..i] + [commands[i]];
      LongestStep(required, commands[..i], commands[i], cursor);
      if cursor < |required| && commands[i] == required[cursor] {
        cursor := cursor + 1;
      }
      if cursor == |required| {
        FoundEarly(required, commands, i + 1);
        return true;
      }
    }
    assert commands[..|commands|] == commands;
    if cursor < |required| {
      BeyondAbsent(required, commands, cursor + 1);
    }
    return false;
  }

  lemma FoundEarly<T>(required: seq<T>, commands: seq<T>, n: nat)
    requires n <= |commands| && Subsequence(required[..|required|], commands[..n])
    ensures Subsequence(required, commands)
  {
    var places: seq<nat> :| Embedding(required[..|required|], commands[..n], places);
    assert required[..|required|] == required;
    assert Embedding(required, commands, places);
  }
}

/** The memoised parent walk: packages/contracts/src/native-context.ts, lines 223-239. */
module NativeParents {
  import opened Options
  import opened Sequences
  import opened JsonText
  import opened ParentChains
  import opened NativeModel

  const PARENT_CYCLE: Text := U("parent-cycle")
  const PARENT_MISSING: Text := U("parent-node-missing")

  // The parent function on the ids of the model.
  function Next(byId: map<Text, ModelNode>): Parents {
    map id | id in byId && byId[id].parent.Txt? && byId[id].parent.text in byId :: byId[id].parent.text
  }

  predicate Dangling(byId: map<Text, ModelNode>, id: Text) {
    id in byId && byId[id].parent.Txt? && byId[id].parent.text !in byId
  }

  // One entry point per cycle: every id on a cycle reaches exactly one of them.
  ghost predicate OneEntryPerCycle(next: Parents, known: set<Text>, entries: seq<Text>) {
    (forall k :: 0 <= k < |entries| ==> OnCycle(next, entries[k]) && entries[k] in known) &&
    (forall j, k :: 0 <= j < |entries| && 0 <= k < |entries| && j != k ==> !Reaches(next, entries[j], entries[k])) &&
    (forall x :: x in known && OnCycle(next, x) ==> exists k :: 0 <= k < |entries| && Reaches(next, x, entries[k]))
  }

  /** The issues for the ids in known: one per dangling parent, and one per cycle, put on an id that leads to it. */
  ghost predicate ParentReport(byId: map<Text, ModelNode>, known: set<Text>, issues: seq<Issue>, entries: seq<Text>) {
    var next, missing, cycles := Next(byId), Reported(issues, PARENT_MISSING), Reported(issues, PARENT_CYCLE);
    && Distinct(missing)
    && (forall x :: x in missing <==> x in known && Dangling(byId, x))
    && |cycles| == |entries|
    && (forall k :: 0 <= k < |entries| ==> Reaches(next, cycles[k], entries[k]))
    && OneEntryPerCycle(next, known, entries)
    && |issues| == |missing| + |cycles|
    && (forall i :: 0 <= i < |issues| ==> issues[i].field == PARENT && issues[i].entityId in byId)
  }

  // The first node of the model whose chain reaches y.
  ghost predicate FirstToReach(next: Parents, nodes: seq<ModelNode>, x: Text, y: Text) {
    exists i :: 0 <= i < |nodes| && nodes[i].id == Txt(x) && Reaches(next, x, y) && NoneReaches(next, nodes[..i], y)
  }

  ghost predicate NoneReaches(next: Parents, nodes: seq<ModelNode>, y: Text) {
    forall n :: n in nodes && n.id.Txt? ==> !Reaches(next, n.id.text, y)
  }

  /** Each cycle issue is put on the first node that leads to its cycle. */
  ghost predicate FirstLeads(next: Parents, nodes: seq<ModelNode>, cycles: seq<Text>, entries: seq<Text>) {
    |cycles| == |entries| && forall k :: 0 <= k < |cycles| ==> FirstToReach(next, nodes, cycles[k], entries[k])
  }

  // ---------------------------------------------------------------------------------------------
  // The four ways a walk ends

  lemma CycleEntry(next: Parents, known: set<Text>, entries: seq<Text>, path: seq<Text>, i: nat)
    requires OneEntryPerCycle(next, known, entries) && Closed(next, known)
    requires Path(next, path) && i < |path| && path[|path| - 1] in next && next[path[|path| - 1]] == path[i]
    requires forall x :: x in path ==> x !in known
    ensures OneEntryPerCycle(next, known + Elements(path), entries + [path[i]])
  {
    var entry, n := path[i], |path| - 1;
    var more := entries + [entry];
    assert path[i..][0] == path[i];
    assert Closed(next, {});
    SuffixClosed(next, path, i, {});
    PathReaches(next, path, i, n);
    assert Iter(next, entry, n - i + 1) == Some(entry);
    var cycle := {} + Elements(path[i..]);
    forall k | 0 <= k < |entries| ensures !Reaches(next, entries[k], entry) && !Reaches(next, entry, entries[k]) {
      ClosedReaches(next, known, entries[k], entry);
      assert entries[k] !in path[i..];
      ClosedReaches(next, cycle, entry, entries[k]);
    }
    forall x | x in known + Elements(path) && OnCycle(next, x)
      ensures exists k :: 0 <= k < |more| && Reaches(next, x, more[k])
    {
      if x in known {
        var k :| 0 <= k < |entries| && Reaches(next, x, entries[k]);
        assert more[k] == entries[k];
      } else {
        var j :| 0 <= j < |path| && path[j] == x;
        if j < i {
          TailOffCycle(next, path, i, {}, j);
        } else {
          PathReaches(next, path, j, n);
          ReachesStep(next, x, path[n]);
          assert more[|entries|] == entry;
        }
      }
    }
  }

  lemma NoNewEntry(next: Parents, known: set<Text>, entries: seq<Text>, path: seq<Text>)
    requires OneEntryPerCycle(next, known, entries) && Closed(next, known)
    requires Path(next, path) && (path != [] && path[|path| - 1] in next ==> next[path[|path| - 1]] in known)
    requires forall x :: x in path ==> x !in known
    ensures OneEntryPerCycle(next, known + Elements(path), entries)
    ensures Closed(next, known + Elements(path))
  {
    assert path[0..] == path;
    SuffixClosed(next, path, 0, known);
    forall x | x in path ensures !OnCycle(next, x) {
      var j :| 0 <= j < |path| && path[j] == x;
      TailOffCycle(next, path, |path|, known, j);
    }
  }

  lemma NamesDiffer()
    ensures PARENT_CYCLE != PARENT_MISSING
  {}

  // A walked path whose parents are all known leaves the report of dangling parents as it is.
  lemma CycleReport(
    byId: map<Text, ModelNode>, known: set<Text>, issues: seq<Issue>, entries: seq<Text>, path: seq<Text>, i: nat)
    requires ParentReport(byId, known, issues, entries) && Closed(Next(byId), known)
    requires Path(Next(byId), path) && i < |path| && forall x :: x in path ==> x in byId && x !in known
    requires path[|path| - 1] in Next(byId) && Next(byId)[path[|path| - 1]] == path[i]
    ensures ParentReport(byId, known + Elements(path), issues + [Issue(path[0], PARENT, PARENT_CYCLE)], entries + [path[i]])
    ensures Closed(Next(byId), known + Elements(path))
  {
    hide OneEntryPerCycle, Reported, Reaches, Next, Path, Closed, Dangling;
    var next, issue := Next(byId), Issue(path[0], PARENT, PARENT_CYCLE);
    NamesDiffer();
    ReportedAppend(issues, issue, PARENT_CYCLE);
    ReportedAppend(issues, issue, PARENT_MISSING);
    CycleEntry(next, known, entries, path, i);
    FirstReaches(next, path, i);
    PathHasParents(byId, path);
    PathClosed(next, path, known);
  }

  lemma FirstReaches(next: Parents, path: seq<Text>, i: nat)
    requires Path(next, path) && i < |path|
    ensures Reaches(next, path[0], path[i])
  {
    PathReaches(next, path, 0, i);
  }

  lemma PathHasParents(byId: map<Text, ModelNode>, path: seq<Text>)
    requires Path(Next(byId), path) && path != [] && path[|path| - 1] in Next(byId)
    ensures forall x :: x in path ==> !Dangling(byId, x)
  {
    forall x | x in path ensures !Dangling(byId, x) {
      var j :| 0 <= j < |path| && path[j] == x;
      assert x in Next(byId);
    }
  }

  lemma PathClosed(next: Parents, path: seq<Text>, known: set<Text>)
    requires Path(next, path) && Closed(next, known)
    requires path != [] && path[|path| - 1] in next ==> next[path[|path| - 1]] in known + Elements(path)
    ensures Closed(next, known + Elements(path))
  {
    assert path[0..] == path;
    SuffixClosed(next, path, 0, known);
  }

  lemma QuietReport(
    byId: map<Text, ModelNode>, known: set<Text>, issues: seq<Issue>, entries: seq<Text>, path: seq<Text>)
    requires ParentReport(byId, known, issues, entries) && Closed(Next(byId), known)
    requires Path(Next(byId), path) && forall x :: x in path ==> x in byId && x !in known
    requires path != [] && path[|path| - 1] in Next(byId) ==> Next(byId)[path[|path| - 1]] in known
    requires path != [] ==> !Dangling(byId, path[|path| - 1])
    ensures ParentReport(byId, known + Elements(path), issues, entries)
    ensures Closed(Next(byId), known + Elements(path))
  {
    var next := Next(byId);
    NoNewEntry(next, known, entries, path);
    InnerNotDangling(byId, path);
    hide OneEntryPerCycle, Reported, Reaches;
  }

  // Only the last id of a walked path can have a dangling parent.
  lemma InnerNotDangling(byId: map<Text, ModelNode>, path: seq<Text>)
    requires Path(Next(byId), path)
    ensures forall x :: x in path && x != path[|path| - 1] ==> !Dangling(byId, x)
  {
    forall x | x in path && x != path[|path| - 1] ensures !Dangling(byId, x) {
      var j :| 0 <= j < |path| && path[j] == x;
      assert path[j] in Next(byId);
    }
  }

  lemma MissingReport(
    byId: map<Text, ModelNode>, known: set<Text>, issues: seq<Issue>, entries: seq<Text>, path: seq<Text>)
    requires ParentReport(byId, known, issues, entries) && Closed(Next(byId), known)
    requires Path(Next(byId), path) && path != [] && forall x :: x in path ==> x in byId && x !in known
    requires Dangling(byId, path[|path| - 1])
    ensures ParentReport(byId, known + Elements(path), issues + [Issue(path[|path| - 1], PARENT, PARENT_MISSING)], entries)
    ensures Closed(Next(byId), known + Elements(path))
  {
    var next, issue := Next(byId), Issue(path[|path| - 1], PARENT, PARENT_MISSING);
    NamesDiffer();
    ReportedAppend(issues, issue, PARENT_CYCLE);
    ReportedAppend(issues, issue, PARENT_MISSING);
    NoNewEntry(next, known, entries, path);
    InnerNotDangling(byId, path);
    assert path[|path| - 1] in path;
    hide OneEntryPerCycle, Reported, Reaches;
  }

  // ---------------------------------------------------------------------------------------------
  // The walk

  lemma EmptyPath(next: Parents)
    ensures Path(next, []) && Elements([]) == {}
  {}

  lemma EmptyReport(byId: map<Text, ModelNode>)
    ensures ParentReport(byId, {}, [], []) && Closed(Next(byId), {})
  {}

  lemma SubsetSize(a: set<Text>, b: set<Text>)
    requires a <= b
    ensures |a| <= |b|
  {
    assert b == a + (b - a);
  }

  // A walk reports no cycle, or one entered at a node not checked before, on the node it started from.
  ghost predicate NewCycle(checked: set<Text>, start: Text, were: seq<Text>, known: seq<Text>, cycles: seq<Text>, entries: seq<Text>) {
    (cycles == were && entries == known) ||
    (cycles == were + [start] && exists entry :: entry !in checked && entries == known + [entry])
  }

  // Nodes before the one a walk starts from are checked, and what is checked leads to nothing unchecked.
  lemma LeadsGrow(next: Parents, nodes: seq<ModelNode>, i: nat, checked: set<Text>,
                  were: seq<Text>, known: seq<Text>, cycles: seq<Text>, entries: seq<Text>)
    requires i < |nodes| && nodes[i].id.Txt? && Closed(next, checked)
    requires forall j :: 0 <= j < i ==> nodes[j].id.Txt? && nodes[j].id.text in checked
    requires FirstLeads(next, nodes, were, known) && NewCycle(checked, nodes[i].id.text, were, known, cycles, entries)
    requires |cycles| == |entries| && forall k :: 0 <= k < |entries| ==> Reaches(next, cycles[k], entries[k])
    ensures FirstLeads(next, nodes, cycles, entries)
  {
    hide Reaches, Closed;
    if cycles != were {
      var entry :| entry !in checked && entries == known + [entry];
      forall n | n in nodes[..i] && n.id.Txt? ensures !Reaches(next, n.id.text, entry) {
        ClosedReaches(next, checked, n.id.text, entry);
      }
      var last := |known|;
      assert cycles[last] == nodes[i].id.text && entries[last] == entry;
      assert FirstToReach(next, nodes, cycles[last], entries[last]);
      forall k | 0 <= k < last ensures FirstToReach(next, nodes, cycles[k], entries[k]) {
        assert cycles[k] == were[k] && entries[k] == known[k];
      }
    }
  }

  lemma ReportLeads(byId: map<Text, ModelNode>, known: set<Text>, issues: seq<Issue>, entries: seq<Text>)
    requires ParentReport(byId, known, issues, entries)
    ensures var cycles := Reported(issues, PARENT_CYCLE);
            |cycles| == |entries| && forall k :: 0 <= k < |entries| ==> Reaches(Next(byId), cycles[k], entries[k])
  {}

  // Follows the parents of one node until something known, repeated, dangling or parentless.
  method WalkChain(byId: map<Text, ModelNode>, node: ModelNode, checked: set<Text>,
                   before: seq<Issue>, ghost known: seq<Text>)
    returns (chain: set<Text>, issues: seq<Issue>, ghost entries: seq<Text>, ghost steps: nat)
    requires forall id :: id in byId ==> byId[id].id == Txt(id) && !byId[id].parent.Foreign?
    requires node.id.Txt? && node.id.text in byId && byId[node.id.text] == node
    requires ParentReport(byId, checked, before, known) && Closed(Next(byId), checked)
    ensures ParentReport(byId, checked + chain, issues, entries) && Closed(Next(byId), checked + chain)
    ensures chain !! checked && chain <= byId.Keys && node.id.text in checked + chain
    ensures steps <= |chain| + 1
    ensures NewCycle(checked, node.id.text, Reported(before, PARENT_CYCLE), known, Reported(issues, PARENT_CYCLE), entries)
  {
    hide ParentReport, Closed, OneEntryPerCycle, OnCycle, Reaches, Path, Elements, Reported;
    NamesDiffer();
    ghost var next := Next(byId);
    var cursor := node;
    ghost var path: seq<Text> := [];
    chain, issues, entries, steps := {}, before, known, 0;
    EmptyPath(next);
    while true
      invariant chain == Elements(path) && Path(next, path)
      invariant forall x :: x in path ==> x in byId && x !in checked
      invariant cursor.id.Txt? && cursor.id.text in byId && byId[cursor.id.text] == cursor
      invariant if path == [] then cursor == node
                else path[0] == node.id.text && path[|path| - 1] in next && next[path[|path| - 1]] == cursor.id.text
      invariant steps <= |chain| && issues == before && entries == known
      decreases byId.Keys - chain
    {
      steps := steps + 1;
      var current := cursor.id.text;
      if current in chain {
        ghost var k :| 0 <= k < |path| && path[k] == current;
        CycleReport(byId, checked, issues, entries, path, k);
        ReportedAppend(before, Issue(node.id.text, PARENT, PARENT_CYCLE), PARENT_CYCLE);
        issues, entries := issues + [Issue(node.id.text, PARENT, PARENT_CYCLE)], entries + [current];
        return;
      }
      if current in checked {
        QuietReport(byId, checked, issues, entries, path);
        return;
      }
      PathExtend(next, path, current);
      chain, path := chain + {current}, path + [current];
      if cursor.parent.Missing? {
        QuietReport(byId, checked, issues, entries, path);
        return;
      }
      if cursor.parent.text !in byId {
        MissingReport(byId, checked, issues, entries, path);
        ReportedAppend(before, Issue(current, PARENT, PARENT_MISSING), PARENT_CYCLE);
        issues := issues + [Issue(current, PARENT, PARENT_MISSING)];
        return;
      }
      cursor := byId[cursor.parent.text];
    }
  }

  method ParentIssues(nodes: seq<ModelNode>) returns (issues: seq<Issue>, ghost entries: seq<Text>, ghost steps: nat)
    requires ShapedNodes(nodes) && UniqueIds(nodes)
    ensures ParentReport(ById(nodes), ById(nodes).Keys, issues, entries)
    ensures steps <= 2 * |nodes|
    ensures FirstLeads(Next(ById(nodes)), nodes, Reported(issues, PARENT_CYCLE), entries)
  {
    hide ParentReport, Closed, Next, ById, Reported, FirstLeads, NewCycle, Reaches;
    var byId := ById(nodes);
    issues, entries, steps := [], [], 0;
    var checked: set<Text> := {};
    EmptyReport(byId);
    NoLeads(Next(byId), nodes);
    for i := 0 to |nodes|
      invariant checked <= byId.Keys && forall k :: 0 <= k < i ==> nodes[k].id.text in checked
      invariant ParentReport(byId, checked, issues, entries) && Closed(Next(byId), checked)
      invariant FirstLeads(Next(byId), nodes, Reported(issues, PARENT_CYCLE), entries)
      invariant steps <= |checked| + i
    {
      ByIdUnique(nodes, nodes[i]);
      var chain: set<Text>;
      ghost var taken: nat;
      ghost var were, known := Reported(issues, PARENT_CYCLE), entries;
      chain, issues, entries, taken := WalkChain(byId, nodes[i], checked, issues, entries);
      ReportLeads(byId, checked + chain, issues, entries);
      LeadsGrow(Next(byId), nodes, i, checked, were, known, Reported(issues, PARENT_CYCLE), entries);
      checked, steps := checked + chain, steps + taken;
    }
    assert checked == byId.Keys;
    SubsetSize(checked, byId.Keys);
  }

  lemma NoLeads(next: Parents, nodes: seq<ModelNode>)
    ensures FirstLeads(next, nodes, Reported([], PARENT_CYCLE), [])
  {}

  // ---------------------------------------------------------------------------------------------
  // What the report means

  ghost predicate EndsAtRoot(byId: map<Text, ModelNode>, x: Text) {
    exists y :: Reaches(Next(byId), x, y) && y in byId && byId[y].parent.Missing?
  }

  /** Every chain ends at a node without a parent. */
  ghost predicate Forest(byId: map<Text, ModelNode>) { forall x :: x in byId ==> EndsAtRoot(byId, x) }

  predicate Shaped(byId: map<Text, ModelNode>) { forall id :: id in byId ==> !byId[id].parent.Foreign? }

  lemma NextClosed(byId: map<Text, ModelNode>)
    ensures Closed(Next(byId), byId.Keys)
  {}

  lemma RootsEnd(byId: map<Text, ModelNode>, x: Text)
    requires x in byId && EndsAtRoot(byId, x)
    ensures !OnCycle(Next(byId), x) && !Dangling(byId, x)
  {
    var next := Next(byId);
    var y :| Reaches(next, x, y) && y in byId && byId[y].parent.Missing?;
    EndReached(next, x, y);
    if OnCycle(next, x) {
      assert Iter(next, x, 0) == Some(x);
      CycleNeverEnds(next, x, x);
    }
    if Dangling(byId, x) {
      var n: nat :| Iter(next, x, n) == Some(y);
      LoneIter(next, x, n);
    }
  }

  lemma NoCycleEndsAtRoot(byId: map<Text, ModelNode>, x: Text)
    requires Shaped(byId) && x in byId
    requires forall z :: z in byId ==> !OnCycle(Next(byId), z) && !Dangling(byId, z)
    ensures EndsAtRoot(byId, x)
  {
    NextClosed(byId);
    var y := ChainOutcome(Next(byId), [x], byId.Keys);
  }

  lemma QuietIffNoFault(byId: map<Text, ModelNode>, issues: seq<Issue>, entries: seq<Text>)
    requires ParentReport(byId, byId.Keys, issues, entries)
    ensures issues == [] <==> forall x :: x in byId ==> !OnCycle(Next(byId), x) && !Dangling(byId, x)
  {
    hide Next, OnCycle, Reaches, Dangling;
    var missing := Reported(issues, PARENT_MISSING);
    if missing != [] { assert missing[0] in missing && missing[0] in byId && Dangling(byId, missing[0]); }
    if entries != [] { assert entries[0] in byId.Keys && OnCycle(Next(byId), entries[0]); }
    if issues == [] {
      forall x | x in byId ensures !OnCycle(Next(byId), x) && !Dangling(byId, x) {
        assert x !in missing;
      }
    }
  }

  /** The walk reports nothing exactly on forests. */
  lemma ReportsNothingIffForest(byId: map<Text, ModelNode>, issues: seq<Issue>, entries: seq<Text>)
    requires Shaped(byId) && ParentReport(byId, byId.Keys, issues, entries)
    ensures issues == [] <==> Forest(byId)
  {
    hide Next, OnCycle, Dangling, ParentReport, EndsAtRoot;
    QuietIffNoFault(byId, issues, entries);
    if issues == [] {
      forall x | x in byId ensures EndsAtRoot(byId, x) {
        NoCycleEndsAtRoot(byId, x);
      }
    }
    if Forest(byId) {
      forall x | x in byId ensures !OnCycle(Next(byId), x) && !Dangling(byId, x) {
        RootsEnd(byId, x);
      }
    }
  }

  /** The same walk without the memo, for one node. */
  predicate PlainWalkAccepts(byId: map<Text, ModelNode>, x: Text, seen: set<Text>)
    requires x in byId
    decreases byId.Keys - seen
  {
    if x in seen then false
    else if byId[x].parent.Missing? then true
    else if !byId[x].parent.Txt? || byId[x].parent.text !in byId then false
    else PlainWalkAccepts(byId, byId[x].parent.text, seen + {x})
  }

  lemma {:induction false} PlainWalkIff(byId: map<Text, ModelNode>, x: Text, path: seq<Text>)
    requires x in byId && Path(Next(byId), path) && forall z :: z in path ==> z in byId
    requires path != [] ==> path[|path| - 1] in Next(byId) && Next(byId)[path[|path| - 1]] == x
    ensures PlainWalkAccepts(byId, x, Elements(path)) <==> EndsAtRoot(byId, x)
    decreases byId.Keys - Elements(path)
  {
    var next := Next(byId);
    if x in path {
      PathMeetsItself(next, path, x);
      if EndsAtRoot(byId, x) { RootsEnd(byId, x); }
    } else if x in next {
      PathExtend(next, path, x);
      PlainWalkIff(byId, next[x], path + [x]);
      assert Iter(next, x, 0) == Some(x) && Iter(next, x, 1) == Some(next[x]);
      if EndsAtRoot(byId, next[x]) {
        var y :| Reaches(next, next[x], y) && y in byId && byId[y].parent.Missing?;
        ReachesTrans(next, x, next[x], y);
      } else if EndsAtRoot(byId, x) {
        var y :| Reaches(next, x, y) && y in byId && byId[y].parent.Missing?;
        var n: nat :| Iter(next, x, n) == Some(y);
        if n > 0 { IterAdd(next, x, 1, n - 1); }
      }
    } else {
      assert Iter(next, x, 0) == Some(x);
      if EndsAtRoot(byId, x) {
        var y :| Reaches(next, x, y) && y in byId && byId[y].parent.Missing?;
        var n: nat :| Iter(next, x, n) == Some(y);
        LoneIter(next, x, n);
      }
    }
  }

  /** The memoised walk accepts exactly what the plain walk accepts from every node. */
  lemma MemoAcceptsLikePlain(byId: map<Text, ModelNode>, issues: seq<Issue>, entries: seq<Text>)
    requires Shaped(byId) && ParentReport(byId, byId.Keys, issues, entries)
    ensures issues == [] <==> forall x :: x in byId ==> PlainWalkAccepts(byId, x, {})
  {
    ReportsNothingIffForest(byId, issues, entries);
    forall x | x in byId ensures PlainWalkAccepts(byId, x, {}) <==> EndsAtRoot(byId, x) {
      PlainWalkIff(byId, x, []);
      assert Elements([]) == {};
    }
  }
}

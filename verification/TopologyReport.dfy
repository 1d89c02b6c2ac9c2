/** What a runtime topology report means, whatever order the records came in. */
module TopologyReport {
  import opened Options
  import opened JsonText
  import opened ParentChains
  import opened NativeModel
  import opened Sorting
  import opened RuntimeTopology

  ghost predicate IsReport(nodes: seq<ModelNode>, relations: seq<ModelRelation>, report: seq<Issue>) {
    Ordered(report, IssueLe) && multiset(report) == Expected(ById(nodes), relations)
  }

  // ---------------------------------------------------------------------------------------------
  // Order independence

  lemma ByIdReordered(nodes: seq<ModelNode>, others: seq<ModelNode>)
    requires UniqueIds(nodes) && multiset(nodes) == multiset(others)
    ensures ById(nodes) == ById(others)
  {
    hide UniqueIds;
    SameElements(nodes, others);
    var a, b := ById(nodes), ById(others);
    forall id | id in a ensures id in b {
      assert a[id] in others;
    }
    forall id | id in b ensures id in a && a[id] == b[id] {
      assert b[id] in nodes;
      ByIdUnique(nodes, b[id]);
    }
  }

  lemma {:induction false} RelationIssuesConcat(byId: Nodes, a: seq<ModelRelation>, b: seq<ModelRelation>)
    ensures AllRelationIssues(byId, a + b) == AllRelationIssues(byId, a) + AllRelationIssues(byId, b)
  {
    hide RelationIssues;
    if b == [] {
      assert a + b == a;
    } else {
      var n := |b| - 1;
      assert (a + b)[..|a + b| - 1] == a + b[..n] && (a + b)[|a| + n] == b[n];
      RelationIssuesConcat(byId, a, b[..n]);
    }
  }

  lemma Without<T>(a: seq<T>, k: nat)
    requires k < |a|
    ensures a == a[..k] + [a[k]] + a[k + 1..]
    ensures multiset(a[..k] + a[k + 1..]) == multiset(a) - multiset{a[k]}
  {
    assert a == a[..k] + [a[k]] + a[k + 1..];
  }

  // Taking one relation out takes its issues out.
  lemma RelationIssuesWithout(byId: Nodes, a: seq<ModelRelation>, k: nat)
    requires k < |a|
    ensures multiset(AllRelationIssues(byId, a))
            == multiset(AllRelationIssues(byId, a[..k] + a[k + 1..])) + multiset(RelationIssues(byId, a[k]))
  {
    hide RelationIssues;
    Without(a, k);
    RelationIssuesConcat(byId, a[..k], a[k + 1..]);
    RelationIssuesConcat(byId, a[..k] + [a[k]], a[k + 1..]);
    assert (a[..k] + [a[k]])[..k] == a[..k];
  }

  lemma {:induction false} RelationIssuesReordered(byId: Nodes, a: seq<ModelRelation>, b: seq<ModelRelation>)
    requires multiset(a) == multiset(b)
    ensures multiset(AllRelationIssues(byId, a)) == multiset(AllRelationIssues(byId, b))
  {
    hide RelationIssues;
    SameLength(a, b);
    if a == [] {
      assert b == [];
    } else {
      SameElements(a, b);
      assert a[0] in b;
      var k :| 0 <= k < |b| && b[k] == a[0];
      Without(a, 0);
      Without(b, k);
      RelationIssuesReordered(byId, a[..0] + a[1..], b[..k] + b[k + 1..]);
      RelationIssuesWithout(byId, a, 0);
      RelationIssuesWithout(byId, b, k);
    }
  }

  lemma GroupsReordered(byId: Nodes, a: seq<ModelRelation>, b: seq<ModelRelation>, id: Text)
    requires forall r :: r in a <==> r in b
    ensures NamespacesOf(byId, a, id) == NamespacesOf(byId, b, id)
    ensures MountersOf(byId, a, id) == MountersOf(byId, b, id)
  {}

  lemma MarkedSame(ids: set<Text>, field: Text, f: Text -> Option<Text>, g: Text -> Option<Text>)
    requires forall id :: f(id) == g(id)
    ensures MarkedSet(ids, field, f) == MarkedSet(ids, field, g)
  {}

  lemma ExpectedReordered(byId: Nodes, a: seq<ModelRelation>, b: seq<ModelRelation>)
    requires multiset(a) == multiset(b)
    ensures Expected(byId, a) == Expected(byId, b)
  {
    hide MarkedSet, NamespacesOf, MountersOf;
    RelationIssuesReordered(byId, a, b);
    SameElements(a, b);
    forall id ensures ProcessFault(byId, a)(id) == ProcessFault(byId, b)(id) && MountFault(byId, a)(id) == MountFault(byId, b)(id) {
      GroupsReordered(byId, a, b, id);
    }
    MarkedSame(byId.Keys, RUNS_IN, ProcessFault(byId, a), ProcessFault(byId, b));
    MarkedSame(byId.Keys, MOUNTS, MountFault(byId, a), MountFault(byId, b));
  }

  /** Reordering nodes and relations gives the same report, issue for issue. */
  lemma ReorderedReport(nodes: seq<ModelNode>, relations: seq<ModelRelation>, report: seq<Issue>,
                        nodes': seq<ModelNode>, relations': seq<ModelRelation>, report': seq<Issue>)
    requires UniqueIds(nodes) && multiset(nodes) == multiset(nodes') && multiset(relations) == multiset(relations')
    requires IsReport(nodes, relations, report) && IsReport(nodes', relations', report')
    ensures report == report'
  {
    ByIdReordered(nodes, nodes');
    ExpectedReordered(ById(nodes), relations, relations');
    hide Expected, ById, IssueLe;
    IssueOrder();
    OrderedUnique(report, report', IssueLe);
  }

  // ---------------------------------------------------------------------------------------------
  // Empty reports

  predicate EndpointValid(byId: Nodes, end: Attr, kinds: seq<Text>) {
    end.Txt? && end.text in byId && byId[end.text].kind.Txt? && byId[end.text].kind.text in kinds
  }

  predicate EndpointsValid(byId: Nodes, r: ModelRelation) {
    Topological(r) ==>
      EndpointValid(byId, r.source, Rule(r.kind.text).value.source) &&
      EndpointValid(byId, r.target, Rule(r.kind.text).value.target)
  }

  predicate OfKind(r: ModelRelation, kind: Text) { r.id.Txt? && r.kind == Txt(kind) }

  // A process names one namespace at most, and a mount is named by one mounter at most.
  predicate OneNamespaceOf(relations: seq<ModelRelation>, process: Text) {
    forall r, s | r in relations && s in relations && OfKind(r, RUNS_IN) && OfKind(s, RUNS_IN)
      :: r.source == Txt(process) && s.source == Txt(process) ==> r.target == s.target
  }

  predicate OneMounterOf(relations: seq<ModelRelation>, mount: Text) {
    forall r, s | r in relations && s in relations && OfKind(r, MOUNTS) && OfKind(s, MOUNTS)
      :: r.target == Txt(mount) && s.target == Txt(mount) ==> r.source == s.source
  }

  ghost predicate NamespaceEnds(byId: Nodes, id: Text) {
    exists y :: Reaches(Nesting(byId), id, y) && IsNamespace(byId, y) && byId[y].parent.Missing?
  }

  /** The runtime topology rules, stated on the model alone. */
  ghost predicate TopologyValid(byId: Nodes, relations: seq<ModelRelation>) {
    && (forall r :: r in relations ==> EndpointsValid(byId, r))
    && (forall p :: OneNamespaceOf(relations, p))
    && (forall m :: OneMounterOf(relations, m))
    && (forall id :: IsNamespace(byId, id) ==> NamespaceEnds(byId, id))
  }

  lemma RelationQuiet(byId: Nodes, r: ModelRelation)
    ensures RelationIssues(byId, r) == [] <==> EndpointsValid(byId, r)
  {}

  lemma {:induction false} RelationsQuiet(byId: Nodes, relations: seq<ModelRelation>)
    ensures AllRelationIssues(byId, relations) == [] <==> forall r :: r in relations ==> EndpointsValid(byId, r)
  {
    hide RelationIssues, EndpointsValid;
    if relations != [] {
      var n := |relations| - 1;
      RelationsQuiet(byId, relations[..n]);
      RelationQuiet(byId, relations[n]);
      assert forall r :: r in relations <==> r in relations[..n] || r == relations[n];
    }
  }

  lemma AtMostOne(s: set<Text>)
    ensures |s| <= 1 <==> forall x, y :: x in s && y in s ==> x == y
  {
    if |s| > 1 {
      var x :| x in s;
      assert |s - {x}| == |s| - 1;
      var y :| y in s - {x};
      assert x in s && y in s;
    } else if |s| == 1 {
      var x :| x in s;
      assert s - {x} == {} by { assert |s - {x}| == 0; }
    }
  }

  lemma OneNamespace(byId: Nodes, relations: seq<ModelRelation>, process: Text)
    requires forall r :: r in relations ==> EndpointsValid(byId, r)
    ensures |NamespacesOf(byId, relations, process)| <= 1 <==> OneNamespaceOf(relations, process)
  {
    var found := NamespacesOf(byId, relations, process);
    AtMostOne(found);
    assert forall r :: r in relations && OfKind(r, RUNS_IN) && r.source == Txt(process) ==>
                         r.target.Txt? && r.target.text in found by {
      forall r | r in relations && OfKind(r, RUNS_IN) && r.source == Txt(process) ensures r.target.Txt? && r.target.text in found {
        assert EndpointsValid(byId, r);
        RelationQuiet(byId, r);
        assert Placed(byId, r, RUNS_IN);
      }
    }
  }

  lemma OneMounter(byId: Nodes, relations: seq<ModelRelation>, mount: Text)
    requires forall r :: r in relations ==> EndpointsValid(byId, r)
    ensures |MountersOf(byId, relations, mount)| <= 1 <==> OneMounterOf(relations, mount)
  {
    var found := MountersOf(byId, relations, mount);
    AtMostOne(found);
    assert forall r :: r in relations && OfKind(r, MOUNTS) && r.target == Txt(mount) ==>
                         r.source.Txt? && r.source.text in found by {
      forall r | r in relations && OfKind(r, MOUNTS) && r.target == Txt(mount) ensures r.source.Txt? && r.source.text in found {
        assert EndpointsValid(byId, r);
        RelationQuiet(byId, r);
        assert Placed(byId, r, MOUNTS);
      }
    }
  }

  lemma NestingClosed(byId: Nodes)
    ensures Closed(Nesting(byId), set x | x in byId && IsNamespace(byId, x))
  {}

  // No namespace has a fault exactly when every namespace chain ends at a parentless namespace.
  lemma NamespacesQuiet(byId: Nodes)
    ensures (forall id :: id in byId ==> NamespaceFault(byId, id).None?) <==>
            forall id :: IsNamespace(byId, id) ==> NamespaceEnds(byId, id)
  {
    if forall id :: id in byId ==> NamespaceFault(byId, id).None? {
      forall id | IsNamespace(byId, id) ensures NamespaceEnds(byId, id) {
        QuietNamespaceEnds(byId, id);
      }
    }
    if forall id :: IsNamespace(byId, id) ==> NamespaceEnds(byId, id) {
      forall id | id in byId ensures NamespaceFault(byId, id).None? {
        if IsNamespace(byId, id) { EndingNamespaceQuiet(byId, id); }
      }
    }
  }

  lemma QuietNamespaceEnds(byId: Nodes, id: Text)
    requires IsNamespace(byId, id) && forall x :: x in byId ==> NamespaceFault(byId, x).None?
    ensures NamespaceEnds(byId, id)
  {
    var next := Nesting(byId);
    NestingClosed(byId);
    SinglePath(next, id);
    var y := ChainOutcome(next, [id], set x | x in byId && IsNamespace(byId, x));
    if OnCycle(next, y) {
      assert Iter(next, y, 0) == Some(y);
      CycleNeverEnds(next, y, y);
      assert NamespaceFault(byId, y).None?;
    }
    assert NamespaceFault(byId, y).None?;
    NestingNext(byId, y);
  }

  lemma EndingNamespaceQuiet(byId: Nodes, id: Text)
    requires IsNamespace(byId, id) && NamespaceEnds(byId, id)
    ensures NamespaceFault(byId, id).None?
  {
    var next := Nesting(byId);
    var y :| Reaches(next, id, y) && IsNamespace(byId, y) && byId[y].parent.Missing?;
    EndReached(next, id, y);
    NestingNext(byId, id);
    if id !in next {
      var n: nat :| Iter(next, id, n) == Some(y);
      LoneIter(next, id, n);
    }
  }

  lemma EmptyBag<T>(s: set<T>)
    ensures multiset(s) == multiset{} <==> s == {}
  {
    if s != {} {
      var x :| x in s;
      assert multiset(s)[x] == 1;
    }
  }

  lemma EmptySum<T>(a: multiset<T>, b: multiset<T>, c: multiset<T>, d: multiset<T>)
    ensures a + b + c + d == multiset{} <==> a == multiset{} && b == multiset{} && c == multiset{} && d == multiset{}
  {
    assert |a + b + c + d| == |a| + |b| + |c| + |d|;
  }

  lemma NothingMarked(ids: set<Text>, field: Text, fault: Text -> Option<Text>)
    ensures MarkedSet(ids, field, fault) == {} <==> forall id :: id in ids ==> fault(id).None?
  {
    forall id | id in ids && fault(id).Some? ensures MarkedSet(ids, field, fault) != {} {
      assert Issue(id, field, fault(id).value) in MarkedSet(ids, field, fault);
    }
  }

  /** A report is empty exactly when the model keeps every topology rule. */
  lemma EmptyIffValid(byId: Nodes, relations: seq<ModelRelation>)
    ensures Expected(byId, relations) == multiset{} <==> TopologyValid(byId, relations)
  {
    hide MarkedSet, AllRelationIssues, EndpointsValid, NamespaceEnds, OneNamespaceOf, OneMounterOf, NamespacesOf, MountersOf,
         NamespaceFault;
    var p, m, n := ProcessFault(byId, relations), MountFault(byId, relations), NestingFault(byId);
    EmptySum(multiset(AllRelationIssues(byId, relations)), multiset(MarkedSet(byId.Keys, RUNS_IN, p)),
             multiset(MarkedSet(byId.Keys, MOUNTS, m)), multiset(MarkedSet(byId.Keys, PARENT, n)));
    EmptyBag(MarkedSet(byId.Keys, RUNS_IN, p));
    EmptyBag(MarkedSet(byId.Keys, MOUNTS, m));
    EmptyBag(MarkedSet(byId.Keys, PARENT, n));
    NothingMarked(byId.Keys, RUNS_IN, p);
    NothingMarked(byId.Keys, MOUNTS, m);
    NothingMarked(byId.Keys, PARENT, n);
    RelationsQuiet(byId, relations);
    NamespacesQuiet(byId);
    SameLengthEmpty(AllRelationIssues(byId, relations));
    if AllRelationIssues(byId, relations) == [] {
      forall id ensures (p(id).None? <==> OneNamespaceOf(relations, id)) && (id !in byId ==> p(id).None?) {
        OneNamespace(byId, relations, id);
        SourcesKnown(byId, relations, id);
      }
      forall id ensures (m(id).None? <==> OneMounterOf(relations, id)) && (id !in byId ==> m(id).None?) {
        OneMounter(byId, relations, id);
        SourcesKnown(byId, relations, id);
      }
    }
  }

  lemma SameLengthEmpty<T>(s: seq<T>)
    ensures multiset(s) == multiset{} <==> s == []
  {
    assert |multiset(s)| == |s|;
  }

  // ---------------------------------------------------------------------------------------------
  // Single issues

  lemma FieldsDiffer()
    ensures SOURCE != PARENT && TARGET != PARENT && RUNS_IN != PARENT && MOUNTS != PARENT
  {
    assert SOURCE[0] != PARENT[0] && TARGET[0] != PARENT[0] && MOUNTS[0] != PARENT[0];
  }

  lemma {:induction false} RelationFields(byId: Nodes, relations: seq<ModelRelation>, issue: Issue)
    requires issue in AllRelationIssues(byId, relations)
    ensures issue.field == SOURCE || issue.field == TARGET
    decreases |relations|
  {
    var n := |relations| - 1;
    if issue in AllRelationIssues(byId, relations[..n]) {
      RelationFields(byId, relations[..n], issue);
    } else {
      assert issue in RelationIssues(byId, relations[n]);
    }
  }

  /** A namespace issue is reported for an id exactly when the namespace rules give it that fault, and then once. */
  lemma NamespaceIssueReported(byId: Nodes, relations: seq<ModelRelation>, id: Text, reason: Text)
    ensures Expected(byId, relations)[Issue(id, PARENT, reason)]
            == if NamespaceFault(byId, id) == Some(reason) then 1 else 0
  {
    hide NamespaceFault, RelationIssues, NamespacesOf, MountersOf;
    var issue := Issue(id, PARENT, reason);
    FieldsDiffer();
    if issue in AllRelationIssues(byId, relations) { RelationFields(byId, relations, issue); }
    assert multiset(AllRelationIssues(byId, relations))[issue] == 0;
    assert issue !in MarkedSet(byId.Keys, RUNS_IN, ProcessFault(byId, relations));
    assert issue !in MarkedSet(byId.Keys, MOUNTS, MountFault(byId, relations));
    FaultKnown(byId, id);
    assert issue in MarkedSet(byId.Keys, PARENT, NestingFault(byId)) <==> NamespaceFault(byId, id) == Some(reason);
  }

  lemma FaultKnown(byId: Nodes, id: Text)
    ensures NamespaceFault(byId, id).Some? ==> id in byId
  {}

  /** The cycle issue falls on exactly the namespaces whose chain of namespaces never ends, tails included. */
  lemma CycleIssueIffEndless(byId: Nodes, relations: seq<ModelRelation>, id: Text)
    ensures Expected(byId, relations)[Issue(id, PARENT, NS_PARENT_CYCLE)]
            == if IsNamespace(byId, id) && !Ends(Nesting(byId), id) then 1 else 0
  {
    NamespaceIssueReported(byId, relations, id, NS_PARENT_CYCLE);
    CycleFault(byId, id);
  }

  lemma CycleFault(byId: Nodes, id: Text)
    ensures NamespaceFault(byId, id) == Some(NS_PARENT_CYCLE) <==> IsNamespace(byId, id) && !Ends(Nesting(byId), id)
  {
    assert |NS_PARENT_CYCLE| == 31 && |NS_PARENT_MISSING| == 33 && |NS_PARENT_KIND| == 38;
    if IsNamespace(byId, id) {
      NestingNext(byId, id);
      if id !in Nesting(byId) {
        assert Iter(Nesting(byId), id, 0) == Some(id);
        assert Iter(Nesting(byId), id, 1).None?;
      }
    }
  }
}

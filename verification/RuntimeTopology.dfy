/** The runtime topology checker: packages/contracts/src/runtime-topology.ts. */
module RuntimeTopology {
  import opened Options
  import opened Sequences
  import opened JsonText
  import opened ParentChains
  import opened NativeModel
  import opened Sorting

  const PROCESS: Text := U("process")
  const MOUNT: Text := U("mount")
  const SPAWNS: Text := U("spawns")
  const RUNS_IN: Text := U("runs-in")
  const MOUNTS: Text := U("mounts")
  const SOURCE: Text := U("source")
  const TARGET: Text := U("target")

  const ENDPOINT_MISSING: Text := U("topology-relation-endpoint-missing")
  const SOURCE_KIND_INVALID: Text := U("topology-relation-source-kind-invalid")
  const TARGET_KIND_INVALID: Text := U("topology-relation-target-kind-invalid")
  const NAMESPACE_AMBIGUOUS: Text := U("topology-process-namespace-ambiguous")
  const MOUNTER_AMBIGUOUS: Text := U("topology-mount-mounter-ambiguous")
  const NS_PARENT_MISSING: Text := U("topology-namespace-parent-missing")
  const NS_PARENT_KIND: Text := U("topology-namespace-parent-kind-invalid")
  const NS_PARENT_CYCLE: Text := U("topology-namespace-parent-cycle")

  type Nodes = map<Text, ModelNode>

  // ---------------------------------------------------------------------------------------------
  // Relations

  datatype Endpoints = Endpoints(source: seq<Text>, target: seq<Text>)

  function Rule(kind: Text): Option<Endpoints> {
    if kind == SPAWNS then Some(Endpoints([PROCESS], [PROCESS]))
    else if kind == RUNS_IN then Some(Endpoints([PROCESS], [NAMESPACE]))
    else if kind == MOUNTS then Some(Endpoints([PROCESS, NAMESPACE], [MOUNT]))
    else None
  }

  predicate Topological(r: ModelRelation) { r.id.Txt? && r.kind.Txt? && Rule(r.kind.text).Some? }

  function EndpointIssue(byId: Nodes, id: Text, field: Text, end: Attr, kinds: seq<Text>, wrongKind: Text): seq<Issue> {
    if !end.Txt? || end.text !in byId then [Issue(id, field, ENDPOINT_MISSING)]
    else if !byId[end.text].kind.Txt? || byId[end.text].kind.text !in kinds then [Issue(id, field, wrongKind)]
    else []
  }

  function RelationIssues(byId: Nodes, r: ModelRelation): seq<Issue> {
    if !Topological(r) then []
    else
      var rule := Rule(r.kind.text).value;
      EndpointIssue(byId, r.id.text, SOURCE, r.source, rule.source, SOURCE_KIND_INVALID) +
      EndpointIssue(byId, r.id.text, TARGET, r.target, rule.target, TARGET_KIND_INVALID)
  }

  function AllRelationIssues(byId: Nodes, relations: seq<ModelRelation>): seq<Issue> {
    if relations == [] then []
    else
      var n := |relations| - 1;
      AllRelationIssues(byId, relations[..n]) + RelationIssues(byId, relations[n])
  }

  // The end names a node of one of these kinds.
  predicate EndOfKind(byId: Nodes, end: Attr, kinds: set<Text>) {
    end.Txt? && end.text in byId && byId[end.text].kind.Txt? && byId[end.text].kind.text in kinds
  }

  /** A relation has no issue exactly when spawns connects processes, runs-in a process to a namespace, and mounts a process or
      namespace to a mount; other relations are not looked at. */
  lemma EndpointsIff(byId: Nodes, r: ModelRelation)
    requires r.id.Txt?
    ensures RelationIssues(byId, r) == [] <==>
            && (r.kind == Txt(U("spawns")) ==>
                  EndOfKind(byId, r.source, {U("process")}) && EndOfKind(byId, r.target, {U("process")}))
            && (r.kind == Txt(U("runs-in")) ==>
                  EndOfKind(byId, r.source, {U("process")}) && EndOfKind(byId, r.target, {U("namespace")}))
            && (r.kind == Txt(U("mounts")) ==>
                  EndOfKind(byId, r.source, {U("process"), U("namespace")}) && EndOfKind(byId, r.target, {U("mount")}))
    ensures Topological(r) <==> r.kind == Txt(U("spawns")) || r.kind == Txt(U("runs-in")) || r.kind == Txt(U("mounts"))
  {
    assert SPAWNS[0] == 0x73 && RUNS_IN[0] == 0x72 && MOUNTS[0] == 0x6D;
  }

  // A relation of this kind whose endpoints are valid.
  predicate Placed(byId: Nodes, r: ModelRelation, kind: Text) {
    Topological(r) && r.kind.text == kind && RelationIssues(byId, r) == []
  }

  /** The namespaces a process runs in, and the mounters of a mount. */
  ghost function NamespacesOf(byId: Nodes, relations: seq<ModelRelation>, process: Text): set<Text> {
    set r | r in relations && Placed(byId, r, RUNS_IN) && r.source == Txt(process) :: r.target.text
  }

  ghost function MountersOf(byId: Nodes, relations: seq<ModelRelation>, mount: Text): set<Text> {
    set r | r in relations && Placed(byId, r, MOUNTS) && r.target == Txt(mount) :: r.source.text
  }

  // ---------------------------------------------------------------------------------------------
  // Namespaces

  predicate IsNamespace(byId: Nodes, id: Text) { id in byId && byId[id].kind == Txt(NAMESPACE) }

  // The nesting of namespaces.
  function Nesting(byId: Nodes): Parents {
    map id | id in byId && IsNamespace(byId, id) && byId[id].parent.Txt? && IsNamespace(byId, byId[id].parent.text)
    :: byId[id].parent.text
  }

  ghost function NamespaceFault(byId: Nodes, id: Text): Option<Text> {
    if !IsNamespace(byId, id) || byId[id].parent.Missing? then None
    else if !byId[id].parent.Txt? || byId[id].parent.text !in byId then Some(NS_PARENT_MISSING)
    else if !IsNamespace(byId, byId[id].parent.text) then Some(NS_PARENT_KIND)
    else if !Ends(Nesting(byId), id) then Some(NS_PARENT_CYCLE)
    else None
  }

  // ---------------------------------------------------------------------------------------------
  // The bag of issues of a model, whatever the order of its records

  ghost function Marked(ids: seq<Text>, field: Text, fault: Text -> Option<Text>): seq<Issue> {
    if ids == [] then []
    else
      var n := |ids| - 1;
      Marked(ids[..n], field, fault) + if fault(ids[n]).Some? then [Issue(ids[n], field, fault(ids[n]).value)] else []
  }

  ghost function MarkedSet(ids: set<Text>, field: Text, fault: Text -> Option<Text>): set<Issue> {
    set id | id in ids && fault(id).Some? :: Issue(id, field, fault(id).value)
  }

  ghost function ProcessFault(byId: Nodes, relations: seq<ModelRelation>): Text -> Option<Text> {
    p => if |NamespacesOf(byId, relations, p)| > 1 then Some(NAMESPACE_AMBIGUOUS) else None
  }

  ghost function MountFault(byId: Nodes, relations: seq<ModelRelation>): Text -> Option<Text> {
    m => if |MountersOf(byId, relations, m)| > 1 then Some(MOUNTER_AMBIGUOUS) else None
  }

  ghost function NestingFault(byId: Nodes): Text -> Option<Text> { id => NamespaceFault(byId, id) }

  /** Every issue of the model, with its multiplicity. */
  ghost function Expected(byId: Nodes, relations: seq<ModelRelation>): multiset<Issue> {
    multiset(AllRelationIssues(byId, relations))
    + multiset(MarkedSet(byId.Keys, RUNS_IN, ProcessFault(byId, relations)))
    + multiset(MarkedSet(byId.Keys, MOUNTS, MountFault(byId, relations)))
    + multiset(MarkedSet(byId.Keys, PARENT, NestingFault(byId)))
  }

  predicate IssueLe(x: Issue, y: Issue) {
    if x.entityId != y.entityId then TextLe(x.entityId, y.entityId)
    else if x.field != y.field then TextLe(x.field, y.field)
    else TextLe(x.reason, y.reason)
  }

  // Marking a list of distinct ids marks its set.
  lemma {:induction false} MarkedBag(ids: seq<Text>, field: Text, fault: Text -> Option<Text>)
    requires Distinct(ids)
    ensures multiset(Marked(ids, field, fault)) == multiset(MarkedSet(Elements(ids), field, fault))
  {
    hide MarkedSet;
    if ids == [] {
      NothingMarked(field, fault);
    } else {
      var n := |ids| - 1;
      var rest, last := ids[..n], ids[n];
      MarkedBag(rest, field, fault);
      assert ids == rest + [last];
      MarkedOne(Elements(rest), last, field, fault);
      assert Elements(ids) == Elements(rest) + {last};
    }
  }

  lemma NothingMarked(field: Text, fault: Text -> Option<Text>)
    ensures Elements([]) == {} && MarkedSet({}, field, fault) == {}
  {}

  lemma MarkedOne(ids: set<Text>, id: Text, field: Text, fault: Text -> Option<Text>)
    requires id !in ids
    ensures multiset(MarkedSet(ids + {id}, field, fault))
            == multiset(MarkedSet(ids, field, fault))
               + if fault(id).Some? then multiset{Issue(id, field, fault(id).value)} else multiset{}
  {
    var a, b := MarkedSet(ids, field, fault), MarkedSet(ids + {id}, field, fault);
    if fault(id).Some? {
      assert Issue(id, field, fault(id).value) !in a;
      assert b == a + {Issue(id, field, fault(id).value)};
    } else {
      assert b == a;
    }
  }

  // ---------------------------------------------------------------------------------------------
  // The namespace chain walk

  lemma NestingNext(byId: Nodes, id: Text)
    requires IsNamespace(byId, id)
    ensures id in Nesting(byId) <==> byId[id].parent.Txt? && IsNamespace(byId, byId[id].parent.text)
    ensures id in Nesting(byId) ==> Nesting(byId)[id] == byId[id].parent.text
  {}

  method ChainRepeats(byId: Nodes, id: Text) returns (repeats: bool)
    requires id in Nesting(byId) && forall x :: x in byId ==> byId[x].id == Txt(x)
    ensures repeats <==> !Ends(Nesting(byId), id)
  {
    hide Nesting, Path, Elements, Ends, Reaches, OnCycle, Closed;
    ghost var next := Nesting(byId);
    assert IsNamespace(byId, id) && byId[id].parent.Txt? && IsNamespace(byId, byId[id].parent.text) by { NestingKey(byId, id); }
    NestingNext(byId, id);
    var seen := {id};
    ghost var path := [id];
    SinglePath(next, id);
    var cursor: Option<ModelNode> := Some(byId[byId[id].parent.text]);
    while cursor.Some? && cursor.value.kind == Txt(NAMESPACE) && cursor.value.id.Txt?
      invariant seen == Elements(path) && Path(next, path) && path != [] && path[0] == id
      invariant forall x :: x in path ==> IsNamespace(byId, x)
      invariant var last := path[|path| - 1];
                if last in next then cursor.Some? && next[last] in byId && cursor.value == byId[next[last]]
                else cursor.None? || cursor.value.kind != Txt(NAMESPACE)
      decreases byId.Keys - seen
    {
      var current := cursor.value.id.text;
      if current in seen {
        PathMeetsItself(next, path, current);
        PathLeadsTo(next, path, current);
        CycleNeverEnds(next, id, current);
        return true;
      }
      PathExtend(next, path, current);
      NestingNext(byId, current);
      seen, path := seen + {current}, path + [current];
      cursor := if cursor.value.parent.Txt? && cursor.value.parent.text in byId
                then Some(byId[cursor.value.parent.text]) else None;
    }
    var last := path[|path| - 1];
    NestingTarget(byId, last);
    PathEnds(next, path);
    return false;
  }

  lemma NestingKey(byId: Nodes, id: Text)
    requires id in Nesting(byId)
    ensures IsNamespace(byId, id) && byId[id].parent.Txt? && IsNamespace(byId, byId[id].parent.text)
  {}

  lemma NestingTarget(byId: Nodes, id: Text)
    ensures id in Nesting(byId) ==> IsNamespace(byId, Nesting(byId)[id])
  {}

  lemma SinglePath(next: Parents, x: Text)
    ensures Path(next, [x]) && Elements([x]) == {x}
  {}

  lemma PathLeadsTo(next: Parents, path: seq<Text>, y: Text)
    requires Path(next, path) && path != [] && path[|path| - 1] in next && next[path[|path| - 1]] == y
    ensures Reaches(next, path[0], y)
  {
    PathReaches(next, path, 0, |path| - 1);
    ReachesStep(next, path[0], path[|path| - 1]);
  }

  lemma PathEnds(next: Parents, path: seq<Text>)
    requires Path(next, path) && path != [] && path[|path| - 1] !in next
    ensures Ends(next, path[0])
  {
    PathReaches(next, path, 0, |path| - 1);
    EndReached(next, path[0], path[|path| - 1]);
  }

  method NamespaceIssue(byId: Nodes, id: Text) returns (fault: Option<Text>)
    requires id in byId && forall x :: x in byId ==> byId[x].id == Txt(x)
    ensures fault == NamespaceFault(byId, id)
  {
    hide Ends, Nesting;
    var node := byId[id];
    if node.kind != Txt(NAMESPACE) || node.parent.Missing? { return None; }
    if !node.parent.Txt? || node.parent.text !in byId { return Some(NS_PARENT_MISSING); }
    if byId[node.parent.text].kind != Txt(NAMESPACE) { return Some(NS_PARENT_KIND); }
    NestingNext(byId, id);
    var repeats := ChainRepeats(byId, id);
    return if repeats then Some(NS_PARENT_CYCLE) else None;
  }

  // ---------------------------------------------------------------------------------------------
  // Grouping the valid relations

  // The Map from key to the values given so far, its keys in order of first use.
  ghost predicate Grouped(keys: seq<Text>, groups: map<Text, seq<Text>>, of: Text -> set<Text>) {
    Distinct(keys) && Elements(keys) == groups.Keys &&
    (forall k :: k in groups ==> Elements(groups[k]) == of(k)) &&
    (forall k :: k !in groups ==> of(k) == {})
  }

  function Grow(groups: map<Text, seq<Text>>, key: Text, value: Text): map<Text, seq<Text>> {
    groups[key := (if key in groups then groups[key] else []) + [value]]
  }

  lemma GroupedGrow(keys: seq<Text>, groups: map<Text, seq<Text>>, before: Text -> set<Text>, after: Text -> set<Text>,
                    key: Text, value: Text)
    requires Grouped(keys, groups, before)
    requires forall k :: after(k) == before(k) + if k == key then {value} else {}
    ensures Grouped(if key in groups then keys else keys + [key], Grow(groups, key, value), after)
  {
    var more := Grow(groups, key, value);
    forall k | k in more ensures Elements(more[k]) == after(k) {
      assert k == key || k in groups;
    }
  }

  lemma GroupedSame(keys: seq<Text>, groups: map<Text, seq<Text>>, before: Text -> set<Text>, after: Text -> set<Text>)
    requires Grouped(keys, groups, before) && forall k :: after(k) == before(k)
    ensures Grouped(keys, groups, after)
  {}

  ghost function Namespaces(byId: Nodes, relations: seq<ModelRelation>): Text -> set<Text> {
    p => NamespacesOf(byId, relations, p)
  }

  ghost function Mounters(byId: Nodes, relations: seq<ModelRelation>): Text -> set<Text> {
    m => MountersOf(byId, relations, m)
  }

  lemma NamespacesGrow(byId: Nodes, relations: seq<ModelRelation>, r: ModelRelation, p: Text)
    ensures NamespacesOf(byId, relations + [r], p)
            == NamespacesOf(byId, relations, p) + if Placed(byId, r, RUNS_IN) && r.source == Txt(p) then {r.target.text} else {}
  {
    assert forall x :: x in relations + [r] <==> x in relations || x == r;
  }

  lemma MountersGrow(byId: Nodes, relations: seq<ModelRelation>, r: ModelRelation, m: Text)
    ensures MountersOf(byId, relations + [r], m)
            == MountersOf(byId, relations, m) + if Placed(byId, r, MOUNTS) && r.target == Txt(m) then {r.source.text} else {}
  {
    assert forall x :: x in relations + [r] <==> x in relations || x == r;
  }

  lemma PlacedEndpoints(byId: Nodes, r: ModelRelation, kind: Text)
    requires Placed(byId, r, kind)
    ensures r.source.Txt? && r.source.text in byId && r.target.Txt? && r.target.text in byId
  {}

  lemma NamespacesStep(byId: Nodes, relations: seq<ModelRelation>, r: ModelRelation,
                       keys: seq<Text>, groups: map<Text, seq<Text>>)
    requires Grouped(keys, groups, Namespaces(byId, relations))
    ensures if Placed(byId, r, RUNS_IN)
            then r.source.Txt? && r.target.Txt? &&
                 Grouped(if r.source.text in groups then keys else keys + [r.source.text],
                         Grow(groups, r.source.text, r.target.text), Namespaces(byId, relations + [r]))
            else Grouped(keys, groups, Namespaces(byId, relations + [r]))
  {
    hide Grouped, NamespacesOf, RelationIssues;
    var before, after := Namespaces(byId, relations), Namespaces(byId, relations + [r]);
    if Placed(byId, r, RUNS_IN) {
      PlacedEndpoints(byId, r, RUNS_IN);
      forall k ensures after(k) == before(k) + if k == r.source.text then {r.target.text} else {} {
        NamespacesGrow(byId, relations, r, k);
      }
      GroupedGrow(keys, groups, before, after, r.source.text, r.target.text);
    } else {
      forall k ensures after(k) == before(k) {
        NamespacesGrow(byId, relations, r, k);
      }
      GroupedSame(keys, groups, before, after);
    }
  }

  lemma MountersStep(byId: Nodes, relations: seq<ModelRelation>, r: ModelRelation,
                     keys: seq<Text>, groups: map<Text, seq<Text>>)
    requires Grouped(keys, groups, Mounters(byId, relations))
    ensures if Placed(byId, r, MOUNTS)
            then r.source.Txt? && r.target.Txt? &&
                 Grouped(if r.target.text in groups then keys else keys + [r.target.text],
                         Grow(groups, r.target.text, r.source.text), Mounters(byId, relations + [r]))
            else Grouped(keys, groups, Mounters(byId, relations + [r]))
  {
    hide Grouped, MountersOf, RelationIssues;
    var before, after := Mounters(byId, relations), Mounters(byId, relations + [r]);
    if Placed(byId, r, MOUNTS) {
      PlacedEndpoints(byId, r, MOUNTS);
      forall k ensures after(k) == before(k) + if k == r.target.text then {r.source.text} else {} {
        MountersGrow(byId, relations, r, k);
      }
      GroupedGrow(keys, groups, before, after, r.target.text, r.source.text);
    } else {
      forall k ensures after(k) == before(k) {
        MountersGrow(byId, relations, r, k);
      }
      GroupedSame(keys, groups, before, after);
    }
  }

  lemma NothingGrouped(byId: Nodes)
    ensures Grouped([], map[], Namespaces(byId, [])) && Grouped([], map[], Mounters(byId, []))
  {}

  method CollectRelations(byId: Nodes, relations: seq<ModelRelation>)
    returns (issues: seq<Issue>, processes: seq<Text>, namespaces: map<Text, seq<Text>>,
             mounts: seq<Text>, mounters: map<Text, seq<Text>>)
    ensures issues == AllRelationIssues(byId, relations)
    ensures Grouped(processes, namespaces, Namespaces(byId, relations))
    ensures Grouped(mounts, mounters, Mounters(byId, relations))
  {
    hide Grouped, RelationIssues, Namespaces, Mounters, Rule;
    issues, processes, namespaces, mounts, mounters := [], [], map[], [], map[];
    NothingGrouped(byId);
    for i := 0 to |relations|
      invariant issues == AllRelationIssues(byId, relations[..i])
      invariant Grouped(processes, namespaces, Namespaces(byId, relations[..i]))
      invariant Grouped(mounts, mounters, Mounters(byId, relations[..i]))
    {
      var r := relations[i];
      assert relations[..i + 1] == relations[..i] + [r];
      NamespacesStep(byId, relations[..i], r, processes, namespaces);
      MountersStep(byId, relations[..i], r, mounts, mounters);
      var found := RelationIssues(byId, r);
      issues := issues + found;
      if Topological(r) && found == [] {
        if r.kind.text == RUNS_IN {
          var process, target := r.source.text, r.target.text;
          processes := if process in namespaces then processes else processes + [process];
          namespaces := Grow(namespaces, process, target);
        }
        if r.kind.text == MOUNTS {
          var mount, source := r.target.text, r.source.text;
          mounts := if mount in mounters then mounts else mounts + [mount];
          mounters := Grow(mounters, mount, source);
        }
      }
    }
    assert relations[..|relations|] == relations;
  }

  // ---------------------------------------------------------------------------------------------
  // The report

  method MarkAmbiguous(keys: seq<Text>, groups: map<Text, seq<Text>>, field: Text, reason: Text, before: seq<Issue>,
                       ghost of: Text -> set<Text>, ghost fault: Text -> Option<Text>)
    returns (issues: seq<Issue>)
    requires Grouped(keys, groups, of)
    requires forall k :: fault(k) == if |of(k)| > 1 then Some(reason) else None
    ensures issues == before + Marked(keys, field, fault)
  {
    issues := before;
    for i := 0 to |keys|
      invariant issues == before + Marked(keys[..i], field, fault)
    {
      assert keys[..i + 1][..i] == keys[..i];
      assert keys[i] in Elements(keys);
      var distinct := set x | x in groups[keys[i]];
      assert distinct == Elements(groups[keys[i]]);
      if |distinct| > 1 {
        issues := issues + [Issue(keys[i], field, reason)];
      }
    }
    assert keys[..|keys|] == keys;
  }

  // The keys of the Map of nodes, in order of first use.
  function Order(nodes: seq<ModelNode>): seq<Text> {
    if nodes == [] then []
    else
      var n := |nodes| - 1;
      var rest := Order(nodes[..n]);
      if nodes[n].id.Txt? && nodes[n].id.text !in rest then rest + [nodes[n].id.text] else rest
  }

  lemma {:induction false} OrderKeys(nodes: seq<ModelNode>)
    ensures Distinct(Order(nodes)) && Elements(Order(nodes)) == ById(nodes).Keys
  {
    if nodes != [] {
      var n := |nodes| - 1;
      OrderKeys(nodes[..n]);
      var rest := Order(nodes[..n]);
      assert forall x :: x in ById(nodes) <==> x in ById(nodes[..n]) || (nodes[n].id == Txt(x));
      assert forall x :: x in Elements(rest) <==> x in rest;
    }
  }

  lemma SourcesKnown(byId: Nodes, relations: seq<ModelRelation>, id: Text)
    ensures NamespacesOf(byId, relations, id) != {} ==> id in byId
    ensures MountersOf(byId, relations, id) != {} ==> id in byId
  {
    if NamespacesOf(byId, relations, id) != {} {
      var x :| x in NamespacesOf(byId, relations, id);
      var r :| r in relations && Placed(byId, r, RUNS_IN) && r.source == Txt(id) && r.target.text == x;
      PlacedEndpoints(byId, r, RUNS_IN);
    }
    if MountersOf(byId, relations, id) != {} {
      var x :| x in MountersOf(byId, relations, id);
      var r :| r in relations && Placed(byId, r, MOUNTS) && r.target == Txt(id) && r.source.text == x;
      PlacedEndpoints(byId, r, MOUNTS);
    }
  }

  // Marking the grouped keys marks every id that has a fault.
  lemma GroupedBag(byId: Nodes, keys: seq<Text>, groups: map<Text, seq<Text>>, of: Text -> set<Text>,
                   field: Text, reason: Text, fault: Text -> Option<Text>)
    requires Grouped(keys, groups, of) && forall k :: of(k) != {} ==> k in byId
    requires forall k :: fault(k) == if |of(k)| > 1 then Some(reason) else None
    ensures multiset(Marked(keys, field, fault)) == multiset(MarkedSet(byId.Keys, field, fault))
  {
    hide Marked;
    MarkedBag(keys, field, fault);
    forall k | fault(k).Some? ensures k in byId && k in Elements(keys) {
      assert of(k) != {};
    }
    assert MarkedSet(Elements(keys), field, fault) == MarkedSet(byId.Keys, field, fault);
  }

  lemma RelationBags(byId: Nodes, relations: seq<ModelRelation>, processes: seq<Text>, namespaces: map<Text, seq<Text>>,
                     mounts: seq<Text>, mounters: map<Text, seq<Text>>)
    requires Grouped(processes, namespaces, Namespaces(byId, relations))
    requires Grouped(mounts, mounters, Mounters(byId, relations))
    ensures multiset(Marked(processes, RUNS_IN, ProcessFault(byId, relations)))
            == multiset(MarkedSet(byId.Keys, RUNS_IN, ProcessFault(byId, relations)))
    ensures multiset(Marked(mounts, MOUNTS, MountFault(byId, relations)))
            == multiset(MarkedSet(byId.Keys, MOUNTS, MountFault(byId, relations)))
  {
    hide Grouped, Marked, MarkedSet, NamespacesOf, MountersOf;
    forall k ensures (Namespaces(byId, relations)(k) != {} ==> k in byId) && (Mounters(byId, relations)(k) != {} ==> k in byId) {
      SourcesKnown(byId, relations, k);
    }
    GroupedBag(byId, processes, namespaces, Namespaces(byId, relations), RUNS_IN, NAMESPACE_AMBIGUOUS,
               ProcessFault(byId, relations));
    GroupedBag(byId, mounts, mounters, Mounters(byId, relations), MOUNTS, MOUNTER_AMBIGUOUS, MountFault(byId, relations));
  }

  lemma IssueOrder()
    ensures Total(IssueLe)
    ensures forall x, y :: IssueLe(x, y) && IssueLe(y, x) ==> x == y
  {
    forall x, y ensures IssueLe(x, y) || IssueLe(y, x) {
      TextLeTotal(x.entityId, y.entityId);
      TextLeTotal(x.field, y.field);
      TextLeTotal(x.reason, y.reason);
    }
    forall x, y | IssueLe(x, y) && IssueLe(y, x) ensures x == y {
      if x.entityId != y.entityId { TextLeAntisymmetric(x.entityId, y.entityId); }
      if x.field != y.field { TextLeAntisymmetric(x.field, y.field); }
      if x.reason != y.reason { TextLeAntisymmetric(x.reason, y.reason); }
    }
    forall x, y, z | IssueLe(x, y) && IssueLe(y, z) ensures IssueLe(x, z) {
      IssueLeTransitive(x, y, z);
    }
  }

  lemma IssueLeTransitive(x: Issue, y: Issue, z: Issue)
    requires IssueLe(x, y) && IssueLe(y, z)
    ensures IssueLe(x, z)
  {
    hide TextLe;
    if x.entityId != y.entityId && y.entityId != z.entityId {
      TextLeTransitive(x.entityId, y.entityId, z.entityId);
      if x.entityId == z.entityId { TextLeAntisymmetric(x.entityId, y.entityId); }
    } else if x.entityId == y.entityId == z.entityId {
      if x.field != y.field && y.field != z.field {
        TextLeTransitive(x.field, y.field, z.field);
        if x.field == z.field { TextLeAntisymmetric(x.field, y.field); }
      } else if x.field == y.field == z.field {
        TextLeTransitive(x.reason, y.reason, z.reason);
      }
    }
  }

  /** The report holds exactly the expected issues, in the one order the three keys allow. */
  method RuntimeTopologyIssues(nodes: seq<ModelNode>, relations: seq<ModelRelation>) returns (report: seq<Issue>)
    ensures Ordered(report, IssueLe) && multiset(report) == Expected(ById(nodes), relations)
  {
    hide Grouped, ById, Namespaces, Mounters, ProcessFault, MountFault, NestingFault, AllRelationIssues, Marked,
         MarkedSet, NamespacesOf, MountersOf, NamespaceFault;
    var byId := ById(nodes);
    var issues, processes, namespaces, mounts, mounters := CollectRelations(byId, relations);
    RelationBags(byId, relations, processes, namespaces, mounts, mounters);
    FaultsOf(byId, relations);
    issues := MarkAmbiguous(processes, namespaces, RUNS_IN, NAMESPACE_AMBIGUOUS, issues,
                            Namespaces(byId, relations), ProcessFault(byId, relations));
    issues := MarkAmbiguous(mounts, mounters, MOUNTS, MOUNTER_AMBIGUOUS, issues,
                            Mounters(byId, relations), MountFault(byId, relations));
    issues := MarkNamespaces(byId, nodes, issues);
    IssueOrder();
    SortOrdered(issues, IssueLe);
    report := Sort(issues, IssueLe);
  }

  lemma FaultsOf(byId: Nodes, relations: seq<ModelRelation>)
    ensures forall k :: ProcessFault(byId, relations)(k)
                        == if |Namespaces(byId, relations)(k)| > 1 then Some(NAMESPACE_AMBIGUOUS) else None
    ensures forall k :: MountFault(byId, relations)(k)
                        == if |Mounters(byId, relations)(k)| > 1 then Some(MOUNTER_AMBIGUOUS) else None
  {}

  method MarkNamespaces(byId: Nodes, nodes: seq<ModelNode>, before: seq<Issue>) returns (issues: seq<Issue>)
    requires byId == ById(nodes)
    ensures multiset(issues) == multiset(before) + multiset(MarkedSet(byId.Keys, PARENT, NestingFault(byId)))
  {
    hide ById, NamespaceFault, MarkedSet, Order, Elements, Distinct;
    var ids, fault: Option<Text> := Order(nodes), None;
    OrderKeys(nodes);
    assert forall id :: id in byId ==> byId[id].id == Txt(id);
    issues := before;
    for i := 0 to |ids|
      invariant issues == before + Marked(ids[..i], PARENT, NestingFault(byId))
    {
      assert ids[..i + 1][..i] == ids[..i];
      assert ids[i] in Elements(ids);
      fault := NamespaceIssue(byId, ids[i]);
      if fault.Some? {
        issues := issues + [Issue(ids[i], PARENT, fault.value)];
      }
    }
    assert ids[..|ids|] == ids;
    MarkedBag(ids, PARENT, NestingFault(byId));
  }
}

/** Reference closure of a native model: packages/contracts/src/native-context.ts, lines 223-290. */
module NativeReferences {
  import opened Options
  import opened Sequences
  import opened JsonText
  import opened JsonReadability
  import opened ParentChains
  import opened NativeModel
  import opened NativeParents
  import opened RuntimeTopology
  import opened TopologyReport
  import opened Sorting

  datatype Selector = Selector(entrypointId: Text, sourceSymbol: Text, sinkId: Text)

  datatype Participant = Participant(id: Text, nodeId: Text)
  datatype Step = Step(id: Text, from: Text, to: Text, caption: Text, evidence: Selector)
  datatype Outcome = Outcome(id: Text, steps: seq<Step>, terminal: Text)
  datatype Flow = Flow(id: Text, capabilityId: Text, required: bool,
                       participants: seq<Participant>, steps: seq<Step>, outcomes: seq<Outcome>)

  const CAPABILITY: Text := U("capability")

  // ---------------------------------------------------------------------------------------------
  // Keys: two selectors, or two steps, have the same key only if they are the same

  function SelectorKey(s: Selector): Text {
    Stringify(Arr([Str(s.entrypointId), Str(s.sourceSymbol), Str(s.sinkId)]))
  }

  lemma SelectorKeyInjective(a: Selector, b: Selector)
    requires SelectorKey(a) == SelectorKey(b)
    ensures a == b
  {
    var u := Arr([Str(a.entrypointId), Str(a.sourceSymbol), Str(a.sinkId)]);
    var v := Arr([Str(b.entrypointId), Str(b.sourceSymbol), Str(b.sinkId)]);
    StringifyInjective(u, v);
    assert u.items[0] == v.items[0] && u.items[1] == v.items[1] && u.items[2] == v.items[2];
  }

  // A step with its keys in canonical order.
  function StepJson(s: Step): Json {
    Obj([Member(U("evidence"), Obj([Member(U("entrypointId"), Str(s.evidence.entrypointId)),
                                    Member(U("sinkId"), Str(s.evidence.sinkId)),
                                    Member(U("sourceSymbol"), Str(s.evidence.sourceSymbol))])),
         Member(U("from"), Str(s.from)), Member(U("id"), Str(s.id)), Member(U("label"), Str(s.caption)),
         Member(U("to"), Str(s.to))])
  }

  function Definition(s: Step): Text { Stringify(StepJson(s)) }

  lemma DefinitionInjective(a: Step, b: Step)
    requires Definition(a) == Definition(b)
    ensures a == b
  {
    StringifyInjective(StepJson(a), StepJson(b));
    var u, v := StepJson(a).members, StepJson(b).members;
    assert u[0] == v[0] && u[1] == v[1] && u[2] == v[2] && u[3] == v[3] && u[4] == v[4];
    var e, f := u[0].value.members, v[0].value.members;
    assert e[0] == f[0] && e[1] == f[1] && e[2] == f[2];
  }

  // ---------------------------------------------------------------------------------------------
  // Source paths and selectors, in the order the model lists them

  datatype Site = PathSite(nodeId: Text, field: Text, path: Text) | SelectorSite(nodeId: Text, selector: Selector)

  const SOURCE_PATH: Text := U("source")
  const ENTRY_PATH: Text := U("source.entrypoints.path")
  const SINK_PATH: Text := U("source.entrypoints.symbols.sinks.path")
  const SINK_ID: Text := U("source.entrypoints.symbols.sinks.id")
  const PATH_UNSAFE: Text := U("path-unsafe")
  const SELECTOR_AMBIGUOUS: Text := U("selector-ambiguous")

  function SinkSites(nodeId: Text, entry: Entrypoint, symbol: EntrySymbol, sinks: seq<Sink>): seq<Site> {
    if sinks == [] then []
    else
      var n := |sinks| - 1;
      SinkSites(nodeId, entry, symbol, sinks[..n])
      + [PathSite(nodeId, SINK_PATH, sinks[n].path), SelectorSite(nodeId, Selector(entry.id, symbol.name, sinks[n].id))]
  }

  function SymbolSites(nodeId: Text, entry: Entrypoint, symbols: seq<EntrySymbol>): seq<Site> {
    if symbols == [] then []
    else
      var n := |symbols| - 1;
      SymbolSites(nodeId, entry, symbols[..n]) + SinkSites(nodeId, entry, symbols[n], symbols[n].sinks)
  }

  function EntrySites(nodeId: Text, entries: seq<Entrypoint>): seq<Site> {
    if entries == [] then []
    else
      var n := |entries| - 1;
      EntrySites(nodeId, entries[..n])
      + ([PathSite(nodeId, ENTRY_PATH, entries[n].path)] + SymbolSites(nodeId, entries[n], entries[n].symbols))
  }

  function SourceSites(nodeId: Text, paths: seq<Text>): seq<Site> {
    if paths == [] then []
    else
      var n := |paths| - 1;
      SourceSites(nodeId, paths[..n]) + [PathSite(nodeId, SOURCE_PATH, paths[n])]
  }

  function NodeSites(node: ModelNode): seq<Site> {
    SourceSites(NameOf(node.id), node.sourcePaths) + EntrySites(NameOf(node.id), node.entrypoints)
  }

  function Sites(nodes: seq<ModelNode>): seq<Site> {
    if nodes == [] then [] else Sites(nodes[..|nodes| - 1]) + NodeSites(nodes[|nodes| - 1])
  }

  function DeclaredIn(sites: seq<Site>): seq<Selector> {
    if sites == [] then []
    else
      var n := |sites| - 1;
      DeclaredIn(sites[..n]) + if sites[n].SelectorSite? then [sites[n].selector] else []
  }

  /** Every sink declared anywhere in the model, in order. */
  function Declared(nodes: seq<ModelNode>): seq<Selector> { DeclaredIn(Sites(nodes)) }

  ghost predicate SafePaths(sites: seq<Site>, safe: Text -> bool) {
    forall k :: 0 <= k < |sites| && sites[k].PathSite? ==> safe(sites[k].path)
  }

  // An unsafe path is an issue, and so is a selector that an earlier sink already has.
  ghost function SiteRule(safe: Text -> bool): (seq<Site>, Site) -> seq<Issue> {
    (before: seq<Site>, site: Site) =>
      match site
      case PathSite(nodeId, field, path) => if safe(path) then [] else [Issue(nodeId, field, PATH_UNSAFE)]
      case SelectorSite(nodeId, selector) =>
        if selector in DeclaredIn(before) then [Issue(nodeId, SINK_ID, SELECTOR_AMBIGUOUS)] else []
  }

  function Keys(declared: seq<Selector>): (keys: set<Text>)
    ensures forall s :: s in declared ==> SelectorKey(s) in keys
  {
    set s | s in declared :: SelectorKey(s)
  }

  lemma KeyKnown(declared: seq<Selector>, s: Selector)
    ensures SelectorKey(s) in Keys(declared) <==> s in declared
  {
    if SelectorKey(s) in Keys(declared) {
      var t :| t in declared && SelectorKey(t) == SelectorKey(s);
      SelectorKeyInjective(s, t);
    }
  }

  lemma KeysGrow(declared: seq<Selector>, s: Selector)
    ensures Keys(declared + [s]) == Keys(declared) + {SelectorKey(s)}
  {
    assert forall t :: t in declared + [s] <==> t in declared || t == s;
  }

  // What is known once the sites have been visited.
  ghost predicate Visited(issues: seq<Issue>, selectors: set<Text>, before: seq<Issue>, sites: seq<Site>, safe: Text -> bool) {
    issues == before + Collected(sites, SiteRule(safe)) && selectors == Keys(DeclaredIn(sites))
  }

  lemma PathVisited(issues: seq<Issue>, selectors: set<Text>, before: seq<Issue>, sites: seq<Site>, safe: Text -> bool,
                    nodeId: Text, field: Text, path: Text)
    requires Visited(issues, selectors, before, sites, safe)
    ensures Visited(issues + (if safe(path) then [] else [Issue(nodeId, field, PATH_UNSAFE)]), selectors, before,
                    sites + [PathSite(nodeId, field, path)], safe)
  {
    hide Keys;
    CollectedGrow(sites, PathSite(nodeId, field, path), SiteRule(safe));
    hide Collected;
    assert (sites + [PathSite(nodeId, field, path)])[..|sites|] == sites && DeclaredIn(sites) + [] == DeclaredIn(sites);
  }

  lemma SelectorVisited(issues: seq<Issue>, selectors: set<Text>, before: seq<Issue>, sites: seq<Site>, safe: Text -> bool,
                        nodeId: Text, selector: Selector)
    requires Visited(issues, selectors, before, sites, safe)
    ensures Visited(issues + (if SelectorKey(selector) in selectors then [Issue(nodeId, SINK_ID, SELECTOR_AMBIGUOUS)] else []),
                    selectors + {SelectorKey(selector)}, before, sites + [SelectorSite(nodeId, selector)], safe)
  {
    hide Keys, SelectorKey;
    CollectedGrow(sites, SelectorSite(nodeId, selector), SiteRule(safe));
    assert (sites + [SelectorSite(nodeId, selector)])[..|sites|] == sites;
    KeyKnown(DeclaredIn(sites), selector);
    KeysGrow(DeclaredIn(sites), selector);
  }

  method VisitSinks(nodeId: Text, entry: Entrypoint, symbol: EntrySymbol, safe: Text -> bool,
                    issues: seq<Issue>, selectors: set<Text>, ghost before: seq<Issue>, ghost sites: seq<Site>)
    returns (issues': seq<Issue>, selectors': set<Text>)
    requires Visited(issues, selectors, before, sites, safe)
    ensures Visited(issues', selectors', before, sites + SinkSites(nodeId, entry, symbol, symbol.sinks), safe)
  {
    hide Visited, SelectorKey;
    issues', selectors' := issues, selectors;
    var sinks := symbol.sinks;
    assert sites + [] == sites;
    for i := 0 to |sinks|
      invariant Visited(issues', selectors', before, sites + SinkSites(nodeId, entry, symbol, sinks[..i]), safe)
    {
      ghost var known := sites + SinkSites(nodeId, entry, symbol, sinks[..i]);
      var selector := Selector(entry.id, symbol.name, sinks[i].id);
      ghost var path, sink := PathSite(nodeId, SINK_PATH, sinks[i].path), SelectorSite(nodeId, selector);
      assert sinks[..i + 1][..i] == sinks[..i];
      assert sites + SinkSites(nodeId, entry, symbol, sinks[..i + 1]) == known + [path] + [sink];
      PathVisited(issues', selectors', before, known, safe, nodeId, SINK_PATH, sinks[i].path);
      if !safe(sinks[i].path) {
        issues' := issues' + [Issue(nodeId, SINK_PATH, PATH_UNSAFE)];
      } else {
        assert issues' + [] == issues';
      }
      SelectorVisited(issues', selectors', before, known + [path], safe, nodeId, selector);
      if SelectorKey(selector) in selectors' {
        issues' := issues' + [Issue(nodeId, SINK_ID, SELECTOR_AMBIGUOUS)];
      } else {
        assert issues' + [] == issues';
      }
      selectors' := selectors' + {SelectorKey(selector)};
    }
    assert sinks[..|sinks|] == sinks;
  }

  method VisitSymbols(nodeId: Text, entry: Entrypoint, safe: Text -> bool,
                      issues: seq<Issue>, selectors: set<Text>, ghost before: seq<Issue>, ghost sites: seq<Site>)
    returns (issues': seq<Issue>, selectors': set<Text>)
    requires Visited(issues, selectors, before, sites, safe)
    ensures Visited(issues', selectors', before,
                    sites + ([PathSite(nodeId, ENTRY_PATH, entry.path)] + SymbolSites(nodeId, entry, entry.symbols)), safe)
  {
    hide Visited, SinkSites;
    issues', selectors' := issues, selectors;
    ghost var path := PathSite(nodeId, ENTRY_PATH, entry.path);
    PathVisited(issues, selectors, before, sites, safe, nodeId, ENTRY_PATH, entry.path);
    if !safe(entry.path) {
      issues' := issues' + [Issue(nodeId, ENTRY_PATH, PATH_UNSAFE)];
    } else {
      assert issues' + [] == issues';
    }
    var symbols := entry.symbols;
    assert sites + [path] + [] == sites + [path];
    for i := 0 to |symbols|
      invariant Visited(issues', selectors', before, sites + [path] + SymbolSites(nodeId, entry, symbols[..i]), safe)
    {
      ghost var known := sites + [path] + SymbolSites(nodeId, entry, symbols[..i]);
      assert symbols[..i + 1][..i] == symbols[..i];
      assert sites + [path] + SymbolSites(nodeId, entry, symbols[..i + 1])
          == known + SinkSites(nodeId, entry, symbols[i], symbols[i].sinks);
      issues', selectors' := VisitSinks(nodeId, entry, symbols[i], safe, issues', selectors', before, known);
    }
    assert symbols[..|symbols|] == symbols;
    assert sites + ([path] + SymbolSites(nodeId, entry, symbols)) == sites + [path] + SymbolSites(nodeId, entry, symbols);
  }

  method VisitNode(node: ModelNode, safe: Text -> bool,
                   issues: seq<Issue>, selectors: set<Text>, ghost before: seq<Issue>, ghost sites: seq<Site>)
    returns (issues': seq<Issue>, selectors': set<Text>)
    requires Visited(issues, selectors, before, sites, safe)
    ensures Visited(issues', selectors', before, sites + NodeSites(node), safe)
  {
    hide Visited, SymbolSites;
    issues', selectors' := issues, selectors;
    var nodeId, paths, entries := NameOf(node.id), node.sourcePaths, node.entrypoints;
    assert sites + [] == sites;
    for i := 0 to |paths|
      invariant Visited(issues', selectors', before, sites + SourceSites(nodeId, paths[..i]), safe)
    {
      ghost var known := sites + SourceSites(nodeId, paths[..i]);
      assert paths[..i + 1][..i] == paths[..i];
      assert sites + SourceSites(nodeId, paths[..i + 1]) == known + [PathSite(nodeId, SOURCE_PATH, paths[i])];
      PathVisited(issues', selectors', before, known, safe, nodeId, SOURCE_PATH, paths[i]);
      if !safe(paths[i]) {
        issues' := issues' + [Issue(nodeId, SOURCE_PATH, PATH_UNSAFE)];
      } else {
        assert issues' + [] == issues';
      }
    }
    assert paths[..|paths|] == paths;
    ghost var sources := sites + SourceSites(nodeId, paths);
    assert sources + [] == sources;
    for i := 0 to |entries|
      invariant Visited(issues', selectors', before, sources + EntrySites(nodeId, entries[..i]), safe)
    {
      ghost var known := sources + EntrySites(nodeId, entries[..i]);
      assert entries[..i + 1][..i] == entries[..i];
      assert sources + EntrySites(nodeId, entries[..i + 1])
          == known + ([PathSite(nodeId, ENTRY_PATH, entries[i].path)] + SymbolSites(nodeId, entries[i], entries[i].symbols));
      issues', selectors' := VisitSymbols(nodeId, entries[i], safe, issues', selectors', before, known);
    }
    assert entries[..|entries|] == entries;
    assert sites + NodeSites(node) == sources + EntrySites(nodeId, entries);
  }

  method SelectorIssues(nodes: seq<ModelNode>, safe: Text -> bool, before: seq<Issue>)
    returns (issues: seq<Issue>, selectors: set<Text>)
    ensures selectors == Keys(Declared(nodes))
    ensures issues == before + Collected(Sites(nodes), SiteRule(safe))
  {
    hide Keys, NodeSites;
    issues, selectors := before, {};
    NothingVisited(before, safe);
    for i := 0 to |nodes|
      invariant Visited(issues, selectors, before, Sites(nodes[..i]), safe)
    {
      hide Visited;
      assert nodes[..i + 1][..i] == nodes[..i];
      issues, selectors := VisitNode(nodes[i], safe, issues, selectors, before, Sites(nodes[..i]));
    }
    assert nodes[..|nodes|] == nodes;
  }

  lemma NothingVisited(before: seq<Issue>, safe: Text -> bool)
    ensures Visited(before, {}, before, [], safe)
  {
    assert before + [] == before;
  }

  /** No site is an issue exactly when all paths are safe and no selector is declared twice. */
  lemma {:induction false} SitesQuiet(sites: seq<Site>, safe: Text -> bool)
    ensures Collected(sites, SiteRule(safe)) == [] <==> SafePaths(sites, safe) && Distinct(DeclaredIn(sites))
  {
    hide Distinct, SiteRule, SafePaths, DeclaredIn;
    if sites == [] {
      NoSites(safe);
    } else {
      var n := |sites| - 1;
      SitesQuiet(sites[..n], safe);
      SiteQuiet(sites[..n], sites[n], safe);
      OneMoreSite(sites[..n], sites[n], safe);
      assert sites == sites[..n] + [sites[n]];
    }
  }

  lemma NoSites(safe: Text -> bool)
    ensures SafePaths([], safe) && Distinct(DeclaredIn([]))
  {}

  lemma OneMoreSite(sites: seq<Site>, site: Site, safe: Text -> bool)
    ensures SafePaths(sites + [site], safe) && Distinct(DeclaredIn(sites + [site])) <==>
            SafePaths(sites, safe) && Distinct(DeclaredIn(sites)) &&
            if site.PathSite? then safe(site.path) else site.selector !in DeclaredIn(sites)
  {
    hide Distinct, SafePaths;
    SafeGrow(sites, site, safe);
    assert (sites + [site])[..|sites|] == sites;
    if site.SelectorSite? { DistinctGrow(DeclaredIn(sites), site.selector); }
    else { assert DeclaredIn(sites) + [] == DeclaredIn(sites); }
  }

  lemma SafeGrow(sites: seq<Site>, site: Site, safe: Text -> bool)
    ensures SafePaths(sites + [site], safe) <==> SafePaths(sites, safe) && (site.PathSite? ==> safe(site.path))
  {
    var more := sites + [site];
    assert more[|sites|] == site && forall k :: 0 <= k < |sites| ==> more[k] == sites[k];
  }

  lemma SiteQuiet(before: seq<Site>, site: Site, safe: Text -> bool)
    ensures SiteRule(safe)(before, site) == []
            <==> if site.PathSite? then safe(site.path) else site.selector !in DeclaredIn(before)
  {}

  // Findings of one entry, pushed one after the other.
  lemma Pushed(before: seq<Issue>, found: seq<Issue>, a: seq<Issue>, b: seq<Issue>, c: seq<Issue>)
    ensures before + found + a + b + c == before + (found + (a + b + c))
    ensures before + found + a + b == before + (found + (a + b))
    ensures before + [] == before
  {}

  // ---------------------------------------------------------------------------------------------
  // Relations

  const VIA: Text := U("via")
  const RELATION_NODE_MISSING: Text := U("relation-node-missing")

  // The end is left out, or it names a node.
  predicate EndKnown(byId: Nodes, end: Attr) { end.Missing? || (end.Txt? && end.text in byId) }

  predicate EndsExist(byId: Nodes, r: ModelRelation) {
    forall end :: end in [r.source, r.target, r.via] ==> end == Missing || (end.Txt? && end.text in byId.Keys)
  }

  lemma EndsExistIff(byId: Nodes, r: ModelRelation)
    ensures EndsExist(byId, r) <==> EndKnown(byId, r.source) && EndKnown(byId, r.target) && EndKnown(byId, r.via)
  {
    assert forall end :: end in [r.source, r.target, r.via] <==> end == r.source || end == r.target || end == r.via;
  }

  ghost function EndIssue(byId: Nodes, r: ModelRelation, field: Text, end: Attr): seq<Issue> {
    if EndKnown(byId, end) then [] else [Issue(NameOf(r.id), field, RELATION_NODE_MISSING)]
  }

  ghost function EndFindings(byId: Nodes, r: ModelRelation): seq<Issue> {
    EndIssue(byId, r, SOURCE, r.source) + EndIssue(byId, r, TARGET, r.target) + EndIssue(byId, r, VIA, r.via)
  }

  ghost function EndRule(byId: Nodes): (seq<ModelRelation>, ModelRelation) -> seq<Issue> {
    (before: seq<ModelRelation>, r: ModelRelation) => EndFindings(byId, r)
  }

  method RelationNodeIssues(byId: Nodes, relations: seq<ModelRelation>, before: seq<Issue>) returns (issues: seq<Issue>)
    ensures issues == before + Collected(relations, EndRule(byId))
  {
    hide Collected, EndKnown;
    issues := before;
    NothingCollected(relations, EndRule(byId), before);
    for i := 0 to |relations|
      invariant issues == before + Collected(relations[..i], EndRule(byId))
    {
      var r := relations[i];
      ghost var found := Collected(relations[..i], EndRule(byId));
      CollectedStep(relations, EndRule(byId), i);
      issues := PushEnds(byId, r, issues);
      Pushed(before, found, EndFindings(byId, r), [], []);
    }
    CollectedWhole(relations, EndRule(byId));
  }

  method PushEnds(byId: Nodes, r: ModelRelation, before: seq<Issue>) returns (issues: seq<Issue>)
    ensures issues == before + EndFindings(byId, r)
  {
    hide EndKnown;
    issues := before;
    if !EndKnown(byId, r.source) { issues := issues + [Issue(NameOf(r.id), SOURCE, RELATION_NODE_MISSING)]; }
    if !EndKnown(byId, r.target) { issues := issues + [Issue(NameOf(r.id), TARGET, RELATION_NODE_MISSING)]; }
    if !EndKnown(byId, r.via) { issues := issues + [Issue(NameOf(r.id), VIA, RELATION_NODE_MISSING)]; }
  }

  lemma EndsQuiet(byId: Nodes, relations: seq<ModelRelation>)
    ensures Collected(relations, EndRule(byId)) == [] <==> forall r :: r in relations ==> EndsExist(byId, r)
  {
    hide EndKnown, Collected;
    CollectedNothing(relations, EndRule(byId));
    hide EndsExist;
    forall k | 0 <= k < |relations| ensures EndFindings(byId, relations[k]) == [] <==> EndsExist(byId, relations[k]) {
      EndsExistIff(byId, relations[k]);
    }
    hide EndFindings;
    forall k | 0 <= k < |relations| ensures EndRule(byId)(relations[..k], relations[k]) == EndFindings(byId, relations[k]) {}
  }

  // ---------------------------------------------------------------------------------------------
  // Flows

  function OutcomeSteps(outcomes: seq<Outcome>): seq<Step> {
    if outcomes == [] then [] else OutcomeSteps(outcomes[..|outcomes| - 1]) + outcomes[|outcomes| - 1].steps
  }

  function AllSteps(flow: Flow): seq<Step> { flow.steps + OutcomeSteps(flow.outcomes) }

  ghost predicate Participates(flow: Flow, id: Text) { exists p :: p in flow.participants && p.id == id }

  ghost predicate StepClosed(flow: Flow, declared: seq<Selector>, s: Step) {
    Participates(flow, s.from) && Participates(flow, s.to) && s.evidence in declared
  }

  predicate IsCapability(byId: Nodes, id: Text) { id in byId && byId[id].kind == Txt(CAPABILITY) }

  /** Every name in the flow refers to something the model declares, and no name is declared twice. */
  ghost predicate FlowClosed(byId: Nodes, declared: seq<Selector>, flow: Flow) {
    && flow.capabilityId in byId.Keys && byId[flow.capabilityId].kind == Txt(U("capability"))
    && (flow.required ==>
          && (forall i, j :: 0 <= i < j < |flow.participants| ==> flow.participants[i].id != flow.participants[j].id)
          && (forall p :: p in flow.participants ==> p.nodeId in byId)
          && (forall i, j :: 0 <= i < j < |flow.outcomes| ==> flow.outcomes[i].id != flow.outcomes[j].id)
          && (forall o :: o in flow.outcomes ==> Participates(flow, o.terminal))
          && (forall s :: HasStep(flow, s) ==> StepClosed(flow, declared, s))
          && (forall s, t :: HasStep(flow, s) && HasStep(flow, t) && s.id == t.id ==> s == t))
  }

  // A step of the flow itself or of one of its outcomes.
  ghost predicate HasStep(flow: Flow, s: Step) { s in flow.steps || exists o :: o in flow.outcomes && s in o.steps }

  lemma {:induction false} OutcomeStepsIff(outcomes: seq<Outcome>, s: Step)
    ensures s in OutcomeSteps(outcomes) <==> exists o :: o in outcomes && s in o.steps
  {
    if outcomes != [] {
      var n := |outcomes| - 1;
      OutcomeStepsIff(outcomes[..n], s);
      assert outcomes == outcomes[..n] + [outcomes[n]];
    }
  }

  lemma AllStepsIff(flow: Flow)
    ensures forall s :: s in AllSteps(flow) <==> HasStep(flow, s)
  {
    hide OutcomeSteps;
    forall s ensures s in AllSteps(flow) <==> HasStep(flow, s) { OutcomeStepsIff(flow.outcomes, s); }
  }

  // The issue, if it is one.
  ghost function When(fault: bool, flow: Flow, field: Text, reason: Text): seq<Issue> {
    if fault then [Issue(flow.id, field, reason)] else []
  }

  lemma Whether(flow: Flow, field: Text, reason: Text)
    ensures When(true, flow, field, reason) == [Issue(flow.id, field, reason)] && When(false, flow, field, reason) == []
  {}

  lemma NothingCollected<T>(s: seq<T>, rule: (seq<T>, T) -> seq<Issue>, before: seq<Issue>)
    ensures before == before + Collected(s[..0], rule)
  {}

  const PARTICIPANT_ID: Text := U("participants.id")
  const PARTICIPANT_NODE: Text := U("participants.nodeId")
  const PARTICIPANT_AMBIGUOUS: Text := U("participant-id-ambiguous")
  const PARTICIPANT_NODE_MISSING: Text := U("participant-node-missing")

  ghost predicate HasParticipant(ps: seq<Participant>, id: Text) { exists i :: 0 <= i < |ps| && ps[i].id == id }

  ghost function ParticipantFindings(byId: Nodes, flow: Flow, before: seq<Participant>, p: Participant): seq<Issue> {
    When(HasParticipant(before, p.id), flow, PARTICIPANT_ID, PARTICIPANT_AMBIGUOUS)
    + When(p.nodeId !in byId, flow, PARTICIPANT_NODE, PARTICIPANT_NODE_MISSING)
  }

  ghost function ParticipantRule(byId: Nodes, flow: Flow): (seq<Participant>, Participant) -> seq<Issue> {
    (before: seq<Participant>, p: Participant) => ParticipantFindings(byId, flow, before, p)
  }

  method ParticipantIssues(byId: Nodes, flow: Flow, before: seq<Issue>)
    returns (issues: seq<Issue>, participantIds: set<Text>)
    ensures forall id :: id in participantIds <==> Participates(flow, id)
    ensures issues == before + Collected(flow.participants, ParticipantRule(byId, flow))
  {
    hide Collected, HasParticipant, Participates, When;
    issues, participantIds := before, {};
    var ps := flow.participants;
    NothingCollected(ps, ParticipantRule(byId, flow), before);
    NoParticipant();
    for k := 0 to |ps|
      invariant forall id :: id in participantIds <==> HasParticipant(ps[..k], id)
      invariant issues == before + Collected(ps[..k], ParticipantRule(byId, flow))
    {
      ghost var found := Collected(ps[..k], ParticipantRule(byId, flow));
      CollectedStep(ps, ParticipantRule(byId, flow), k);
      ParticipantGrow(ps, k);
      ghost var twice := When(HasParticipant(ps[..k], ps[k].id), flow, PARTICIPANT_ID, PARTICIPANT_AMBIGUOUS);
      ghost var lost := When(ps[k].nodeId !in byId, flow, PARTICIPANT_NODE, PARTICIPANT_NODE_MISSING);
      if ps[k].id in participantIds { issues := issues + [Issue(flow.id, PARTICIPANT_ID, PARTICIPANT_AMBIGUOUS)]; }
      assert issues == before + found + twice by { Whether(flow, PARTICIPANT_ID, PARTICIPANT_AMBIGUOUS); }
      participantIds := participantIds + {ps[k].id};
      if ps[k].nodeId !in byId { issues := issues + [Issue(flow.id, PARTICIPANT_NODE, PARTICIPANT_NODE_MISSING)]; }
      assert issues == before + found + twice + lost by { Whether(flow, PARTICIPANT_NODE, PARTICIPANT_NODE_MISSING); }
      Pushed(before, found, twice, lost, []);
    }
    CollectedWhole(ps, ParticipantRule(byId, flow));
    ParticipantsAre(flow);
  }

  lemma NoParticipant()
    ensures forall id :: !HasParticipant([], id)
  {}

  lemma ParticipantsAre(flow: Flow)
    ensures forall id :: HasParticipant(flow.participants[..|flow.participants|], id) <==> Participates(flow, id)
  {
    assert flow.participants[..|flow.participants|] == flow.participants;
  }

  lemma ParticipantGrow(ps: seq<Participant>, k: nat)
    requires k < |ps|
    ensures forall id :: HasParticipant(ps[..k + 1], id) <==> HasParticipant(ps[..k], id) || id == ps[k].id
  {
    assert ps[..k + 1] == ps[..k] + [ps[k]];
    forall id ensures HasParticipant(ps[..k + 1], id) <==> HasParticipant(ps[..k], id) || id == ps[k].id {
      if HasParticipant(ps[..k], id) {
        var i :| 0 <= i < k && ps[..k][i].id == id;
        assert ps[..k + 1][i].id == id;
      }
      assert ps[..k + 1][k] == ps[k];
    }
  }

  lemma ParticipantsQuiet(byId: Nodes, flow: Flow)
    ensures Collected(flow.participants, ParticipantRule(byId, flow)) == [] <==>
            (forall p :: p in flow.participants ==> p.nodeId in byId) &&
            forall i, j :: 0 <= i < j < |flow.participants| ==> flow.participants[i].id != flow.participants[j].id
  {
    hide Collected;
    var ps := flow.participants;
    CollectedNothing(ps, ParticipantRule(byId, flow));
    forall k | 0 <= k < |ps|
      ensures ParticipantRule(byId, flow)(ps[..k], ps[k]) == [] <==>
              ps[k].nodeId in byId && forall i :: 0 <= i < k ==> ps[i].id != ps[k].id
    {
      ParticipantQuiet(byId, flow, k);
    }
    hide ParticipantRule;
  }

  lemma ParticipantQuiet(byId: Nodes, flow: Flow, k: nat)
    requires k < |flow.participants|
    ensures var ps := flow.participants;
            ParticipantRule(byId, flow)(ps[..k], ps[k]) == [] <==>
            ps[k].nodeId in byId && forall i :: 0 <= i < k ==> ps[i].id != ps[k].id
  {
    var ps := flow.participants;
    if i :| 0 <= i < k && ps[i].id == ps[k].id { assert ps[..k][i].id == ps[k].id; }
  }

  const OUTCOME_ID: Text := U("outcomes.id")
  const OUTCOME_TERMINAL: Text := U("outcomes.terminal")
  const OUTCOME_AMBIGUOUS: Text := U("outcome-id-ambiguous")
  const TERMINAL_MISSING: Text := U("terminal-participant-missing")

  ghost predicate HasOutcome(os: seq<Outcome>, id: Text) { exists i :: 0 <= i < |os| && os[i].id == id }

  ghost function OutcomeFindings(flow: Flow, before: seq<Outcome>, o: Outcome): seq<Issue> {
    When(HasOutcome(before, o.id), flow, OUTCOME_ID, OUTCOME_AMBIGUOUS)
    + When(!Participates(flow, o.terminal), flow, OUTCOME_TERMINAL, TERMINAL_MISSING)
  }

  ghost function OutcomeRule(flow: Flow): (seq<Outcome>, Outcome) -> seq<Issue> {
    (before: seq<Outcome>, o: Outcome) => OutcomeFindings(flow, before, o)
  }

  method OutcomeIssues(flow: Flow, participantIds: set<Text>, before: seq<Issue>) returns (issues: seq<Issue>)
    requires forall id :: id in participantIds <==> Participates(flow, id)
    ensures issues == before + Collected(flow.outcomes, OutcomeRule(flow))
  {
    hide Collected, HasOutcome, Participates, When;
    issues := before;
    var outcomeIds: set<Text>, os := {}, flow.outcomes;
    NothingCollected(os, OutcomeRule(flow), before);
    NoOutcome();
    for k := 0 to |os|
      invariant forall id :: id in outcomeIds <==> HasOutcome(os[..k], id)
      invariant issues == before + Collected(os[..k], OutcomeRule(flow))
    {
      ghost var found := Collected(os[..k], OutcomeRule(flow));
      CollectedStep(os, OutcomeRule(flow), k);
      OutcomeGrow(os, k);
      ghost var twice := When(HasOutcome(os[..k], os[k].id), flow, OUTCOME_ID, OUTCOME_AMBIGUOUS);
      ghost var lost := When(!Participates(flow, os[k].terminal), flow, OUTCOME_TERMINAL, TERMINAL_MISSING);
      if os[k].id in outcomeIds { issues := issues + [Issue(flow.id, OUTCOME_ID, OUTCOME_AMBIGUOUS)]; }
      assert issues == before + found + twice by { Whether(flow, OUTCOME_ID, OUTCOME_AMBIGUOUS); }
      outcomeIds := outcomeIds + {os[k].id};
      if os[k].terminal !in participantIds { issues := issues + [Issue(flow.id, OUTCOME_TERMINAL, TERMINAL_MISSING)]; }
      assert issues == before + found + twice + lost by { Whether(flow, OUTCOME_TERMINAL, TERMINAL_MISSING); }
      Pushed(before, found, twice, lost, []);
    }
    CollectedWhole(os, OutcomeRule(flow));
  }

  lemma NoOutcome()
    ensures forall id :: !HasOutcome([], id)
  {}

  lemma OutcomeGrow(os: seq<Outcome>, k: nat)
    requires k < |os|
    ensures forall id :: HasOutcome(os[..k + 1], id) <==> HasOutcome(os[..k], id) || id == os[k].id
  {
    assert os[..k + 1] == os[..k] + [os[k]];
    forall id ensures HasOutcome(os[..k + 1], id) <==> HasOutcome(os[..k], id) || id == os[k].id {
      if HasOutcome(os[..k], id) {
        var i :| 0 <= i < k && os[..k][i].id == id;
        assert os[..k + 1][i].id == id;
      }
      assert os[..k + 1][k] == os[k];
    }
  }

  lemma OutcomesQuiet(flow: Flow)
    ensures Collected(flow.outcomes, OutcomeRule(flow)) == [] <==>
            (forall o :: o in flow.outcomes ==> Participates(flow, o.terminal)) &&
            forall i, j :: 0 <= i < j < |flow.outcomes| ==> flow.outcomes[i].id != flow.outcomes[j].id
  {
    hide Collected, Participates;
    var os := flow.outcomes;
    CollectedNothing(os, OutcomeRule(flow));
    forall k | 0 <= k < |os|
      ensures OutcomeRule(flow)(os[..k], os[k]) == [] <==>
              Participates(flow, os[k].terminal) && forall i :: 0 <= i < k ==> os[i].id != os[k].id
    {
      OutcomeQuiet(flow, k);
    }
    hide OutcomeRule;
  }

  lemma OutcomeQuiet(flow: Flow, k: nat)
    requires k < |flow.outcomes|
    ensures var os := flow.outcomes;
            OutcomeRule(flow)(os[..k], os[k]) == [] <==>
            Participates(flow, os[k].terminal) && forall i :: 0 <= i < k ==> os[i].id != os[k].id
  {
    hide Participates;
    var os := flow.outcomes;
    if i :| 0 <= i < k && os[i].id == os[k].id { assert os[..k][i].id == os[k].id; }
  }

  // ---------------------------------------------------------------------------------------------
  // Steps

  const STEPS: Text := U("steps")
  const STEP_ID: Text := U("steps.id")
  const STEP_EVIDENCE: Text := U("steps.evidence")
  const STEP_PARTICIPANT_MISSING: Text := U("step-participant-missing")
  const STEP_AMBIGUOUS: Text := U("step-definition-ambiguous")
  const SELECTOR_MISSING: Text := U("selector-missing")

  ghost predicate StepsAgree(steps: seq<Step>) {
    forall s, t :: s in steps && t in steps && s.id == t.id ==> s == t
  }

  // The last step of that id.
  ghost predicate Latest(steps: seq<Step>, id: Text, j: nat) {
    j < |steps| && steps[j].id == id && forall k :: j < k < |steps| ==> steps[k].id != id
  }

  // The last earlier step of the same id is another step.
  ghost predicate Redefines(before: seq<Step>, s: Step) {
    exists j: nat :: Latest(before, s.id, j) && before[j] != s
  }

  ghost function StepFindings(flow: Flow, declared: seq<Selector>, before: seq<Step>, s: Step): seq<Issue> {
    When(!Participates(flow, s.from) || !Participates(flow, s.to), flow, STEPS, STEP_PARTICIPANT_MISSING)
    + When(Redefines(before, s), flow, STEP_ID, STEP_AMBIGUOUS)
    + When(s.evidence !in declared, flow, STEP_EVIDENCE, SELECTOR_MISSING)
  }

  ghost function StepRule(flow: Flow, declared: seq<Selector>): (seq<Step>, Step) -> seq<Issue> {
    (before: seq<Step>, s: Step) => StepFindings(flow, declared, before, s)
  }

  // The map of definitions holds the text of the last step of each id.
  ghost predicate Defines(definitions: map<Text, Text>, steps: seq<Step>) {
    (forall id :: id in definitions ==> exists j: nat :: Latest(steps, id, j)) &&
    (forall id, j: nat :: Latest(steps, id, j) ==> id in definitions && definitions[id] == Definition(steps[j]))
  }

  lemma LatestGrow(steps: seq<Step>, s: Step, id: Text, j: nat)
    ensures Latest(steps + [s], id, j) <==> if id == s.id then j == |steps| else Latest(steps, id, j)
  {
    var more := steps + [s];
    assert more[|steps|] == s && forall k :: 0 <= k < |steps| ==> more[k] == steps[k];
  }

  // The map holds another text for the step's id exactly when the step redefines it.
  lemma DefineStep(definitions: map<Text, Text>, steps: seq<Step>, s: Step)
    requires Defines(definitions, steps)
    ensures Defines(definitions[s.id := Definition(s)], steps + [s])
    ensures (s.id in definitions && definitions[s.id] != Definition(s)) <==> Redefines(steps, s)
  {
    hide Definition, Latest;
    var more := definitions[s.id := Definition(s)];
    forall id, j: nat ensures Latest(steps + [s], id, j) <==> if id == s.id then j == |steps| else Latest(steps, id, j) {
      LatestGrow(steps, s, id, j);
    }
    forall id, j: nat | Latest(steps + [s], id, j)
      ensures j < |steps + [s]| && id in more && more[id] == Definition((steps + [s])[j])
    {
      LatestBelow(steps + [s], id, j);
      if id != s.id { LatestBelow(steps, id, j); }
    }
    forall id | id in more ensures exists j: nat :: Latest(steps + [s], id, j) {
      if id == s.id {
        assert Latest(steps + [s], id, |steps|);
      } else {
        var j: nat :| Latest(steps, id, j);
        assert Latest(steps + [s], id, j);
      }
    }
    if s.id in definitions {
      var j: nat :| Latest(steps, s.id, j);
      LatestBelow(steps, s.id, j);
      if Definition(steps[j]) == Definition(s) { DefinitionInjective(steps[j], s); }
    }
  }

  lemma LatestBelow(steps: seq<Step>, id: Text, j: nat)
    requires Latest(steps, id, j)
    ensures j < |steps| && steps[j].id == id
    ensures forall k: nat :: Latest(steps, id, k) ==> k == j
  {}

  method StepIssues(flow: Flow, selectors: set<Text>, participantIds: set<Text>, before: seq<Issue>,
                    ghost declared: seq<Selector>)
    returns (issues: seq<Issue>)
    requires selectors == Keys(declared) && forall id :: id in participantIds <==> Participates(flow, id)
    ensures issues == before + Collected(AllSteps(flow), StepRule(flow, declared))
  {
    hide Keys, Definition, SelectorKey, AllSteps, Participates, Redefines, Defines, Collected, When;
    issues := before;
    var definitions: map<Text, Text>, steps := map[], AllSteps(flow);
    NoDefinitions();
    NothingCollected(steps, StepRule(flow, declared), before);
    for k := 0 to |steps|
      invariant Defines(definitions, steps[..k])
      invariant issues == before + Collected(steps[..k], StepRule(flow, declared))
    {
      var step := steps[k];
      ghost var found := Collected(steps[..k], StepRule(flow, declared));
      assert steps[..k + 1] == steps[..k] + [step];
      CollectedStep(steps, StepRule(flow, declared), k);
      DefineStep(definitions, steps[..k], step);
      KeyKnown(declared, step.evidence);
      ghost var ends := When(!Participates(flow, step.from) || !Participates(flow, step.to), flow, STEPS, STEP_PARTICIPANT_MISSING);
      ghost var again := When(Redefines(steps[..k], step), flow, STEP_ID, STEP_AMBIGUOUS);
      ghost var proof := When(step.evidence !in declared, flow, STEP_EVIDENCE, SELECTOR_MISSING);
      if step.from !in participantIds || step.to !in participantIds {
        issues := issues + [Issue(flow.id, STEPS, STEP_PARTICIPANT_MISSING)];
      }
      assert issues == before + found + ends by { Whether(flow, STEPS, STEP_PARTICIPANT_MISSING); }
      var definition := Definition(step);
      if step.id in definitions && definitions[step.id] != definition {
        issues := issues + [Issue(flow.id, STEP_ID, STEP_AMBIGUOUS)];
      }
      assert issues == before + found + ends + again by { Whether(flow, STEP_ID, STEP_AMBIGUOUS); }
      definitions := definitions[step.id := definition];
      if SelectorKey(step.evidence) !in selectors {
        issues := issues + [Issue(flow.id, STEP_EVIDENCE, SELECTOR_MISSING)];
      }
      assert issues == before + found + ends + again + proof by { Whether(flow, STEP_EVIDENCE, SELECTOR_MISSING); }
      Pushed(before, found, ends, again, proof);
    }
    CollectedWhole(steps, StepRule(flow, declared));
  }

  lemma NoDefinitions()
    ensures Defines(map[], [])
  {}

  lemma {:induction false} LatestExists(steps: seq<Step>, id: Text)
    requires exists t :: t in steps && t.id == id
    ensures exists j: nat :: Latest(steps, id, j)
  {
    var n := |steps| - 1;
    if steps[n].id == id {
      assert Latest(steps, id, n);
    } else {
      assert steps == steps[..n] + [steps[n]];
      LatestExists(steps[..n], id);
      var j: nat :| Latest(steps[..n], id, j);
      LatestGrow(steps[..n], steps[n], id, j);
    }
  }

  // Comparing each step with the last one of its id alone finds every disagreement there is.
  lemma {:induction false} RedefinitionsFound(steps: seq<Step>)
    ensures (forall k :: 0 <= k < |steps| ==> !Redefines(steps[..k], steps[k])) <==> StepsAgree(steps)
  {
    hide Latest, Redefines, StepsAgree;
    if steps == [] {
      NoStepsAgree();
    } else {
      var n := |steps| - 1;
      RedefinitionsFound(steps[..n]);
      LastAgrees(steps[..n], steps[n]);
      assert steps == steps[..n] + [steps[n]];
      forall k | 0 <= k < n ensures steps[..n][..k] == steps[..k] && steps[..n][k] == steps[k] {}
    }
  }

  lemma NoStepsAgree()
    ensures StepsAgree([])
  {}

  // The last step agrees with all before it exactly when it does not redefine its id.
  lemma LastAgrees(steps: seq<Step>, s: Step)
    ensures StepsAgree(steps + [s]) <==> StepsAgree(steps) && (StepsAgree(steps) ==> !Redefines(steps, s))
  {
    hide Latest;
    assert forall t :: t in steps + [s] <==> t in steps || t == s;
    if t :| t in steps && t.id == s.id {
      LatestExists(steps, s.id);
      var j: nat :| Latest(steps, s.id, j);
      LatestBelow(steps, s.id, j);
      assert steps[j] in steps;
    } else {
      NoneLatest(steps, s);
    }
  }

  lemma NoneLatest(steps: seq<Step>, s: Step)
    requires forall t :: t in steps ==> t.id != s.id
    ensures !Redefines(steps, s)
  {}

  lemma StepsQuiet(flow: Flow, declared: seq<Selector>)
    ensures Collected(AllSteps(flow), StepRule(flow, declared)) == [] <==>
            StepsAgree(AllSteps(flow)) && forall s :: s in AllSteps(flow) ==> StepClosed(flow, declared, s)
  {
    hide AllSteps, Participates, StepsAgree, Redefines, Collected;
    var steps := AllSteps(flow);
    CollectedNothing(steps, StepRule(flow, declared));
    RedefinitionsFound(steps);
    forall k | 0 <= k < |steps|
      ensures StepRule(flow, declared)(steps[..k], steps[k]) == [] <==>
              StepClosed(flow, declared, steps[k]) && !Redefines(steps[..k], steps[k])
    {
      StepQuiet(flow, declared, steps[..k], steps[k]);
    }
    hide StepRule, StepClosed;
  }

  lemma StepQuiet(flow: Flow, declared: seq<Selector>, before: seq<Step>, s: Step)
    ensures StepFindings(flow, declared, before, s) == [] <==> StepClosed(flow, declared, s) && !Redefines(before, s)
  {
    hide Participates, Redefines;
  }

  const CAPABILITY_FIELD: Text := U("capabilityId")
  const CAPABILITY_MISSING: Text := U("flow-capability-missing")

  /** The issues of one flow, in order. */
  ghost function FlowRule(byId: Nodes, declared: seq<Selector>): (seq<Flow>, Flow) -> seq<Issue> {
    (before: seq<Flow>, flow: Flow) => FlowReport(byId, declared, flow)
  }

  ghost function FlowReport(byId: Nodes, declared: seq<Selector>, flow: Flow): seq<Issue> {
    When(!IsCapability(byId, flow.capabilityId), flow, CAPABILITY_FIELD, CAPABILITY_MISSING)
    + if !flow.required then []
      else Collected(flow.participants, ParticipantRule(byId, flow)) + Collected(flow.outcomes, OutcomeRule(flow))
           + Collected(AllSteps(flow), StepRule(flow, declared))
  }

  method FlowIssues(byId: Nodes, selectors: set<Text>, flow: Flow, before: seq<Issue>, ghost declared: seq<Selector>)
    returns (issues: seq<Issue>)
    requires selectors == Keys(declared)
    ensures issues == before + FlowReport(byId, declared, flow)
  {
    hide Keys, AllSteps, Participates, ParticipantRule, OutcomeRule, StepRule, Collected;
    issues := before;
    if !IsCapability(byId, flow.capabilityId) {
      issues := issues + [Issue(flow.id, CAPABILITY_FIELD, CAPABILITY_MISSING)];
    }
    if flow.required {
      var participantIds: set<Text>;
      issues, participantIds := ParticipantIssues(byId, flow, issues);
      issues := OutcomeIssues(flow, participantIds, issues);
      issues := StepIssues(flow, selectors, participantIds, issues, declared);
    }
  }

  lemma FlowQuiet(byId: Nodes, declared: seq<Selector>, flow: Flow)
    ensures FlowReport(byId, declared, flow) == [] <==> FlowClosed(byId, declared, flow)
  {
    hide AllSteps, HasStep, Participates, ParticipantRule, OutcomeRule, StepRule, Collected, StepClosed;
    AllStepsIff(flow);
    ParticipantsQuiet(byId, flow);
    OutcomesQuiet(flow);
    StepsQuiet(flow, declared);
  }

  // ---------------------------------------------------------------------------------------------
  // The whole reference check

  /** Nothing in the model refers to something it does not declare. */
  ghost predicate ReferenceClosed(
    nodes: seq<ModelNode>, relations: seq<ModelRelation>, flows: seq<Flow>, safe: Text -> bool) {
    var byId, declared := ById(nodes), Declared(nodes);
    && Forest(byId)
    && SafePaths(Sites(nodes), safe) && Distinct(declared)
    && (forall r :: r in relations ==> EndsExist(byId, r))
    && TopologyValid(byId, relations)
    && (forall f :: f in flows ==> FlowClosed(byId, declared, f))
  }

  lemma ShapedById(nodes: seq<ModelNode>)
    requires ShapedNodes(nodes)
    ensures Shaped(ById(nodes))
  {}

  lemma EmptyBagIffEmpty<T>(s: seq<T>, bag: multiset<T>)
    requires multiset(s) == bag
    ensures s == [] <==> bag == multiset{}
  {
    SameLengthEmpty(s);
  }

  method ReferenceIssues(nodes: seq<ModelNode>, relations: seq<ModelRelation>, flows: seq<Flow>, safe: Text -> bool)
    returns (issues: seq<Issue>, ghost parents: seq<Issue>, ghost entries: seq<Text>, ghost topology: seq<Issue>)
    requires ShapedNodes(nodes) && UniqueIds(nodes)
    ensures ParentReport(ById(nodes), ById(nodes).Keys, parents, entries)
    ensures FirstLeads(Next(ById(nodes)), nodes, Reported(parents, PARENT_CYCLE), entries)
    ensures Ordered(topology, IssueLe) && multiset(topology) == Expected(ById(nodes), relations)
    ensures issues == parents + Collected(Sites(nodes), SiteRule(safe)) + Collected(relations, EndRule(ById(nodes))) + topology
                      + Collected(flows, FlowRule(ById(nodes), Declared(nodes)))
  {
    hide Keys, ById, Declared, Expected, ParentReport, FirstLeads, UniqueIds, SiteRule, EndRule, Sites, FlowReport, Ordered;
    var byId := ById(nodes);
    var selectors: set<Text>;
    ghost var steps;
    issues, entries, steps := ParentIssues(nodes);
    parents := issues;
    issues, selectors := SelectorIssues(nodes, safe, issues);
    issues := RelationNodeIssues(byId, relations, issues);
    var report := RuntimeTopologyIssues(nodes, relations);
    topology := report;
    issues := issues + report;
    ghost var before := issues;
    for i := 0 to |flows|
      invariant issues == before + Collected(flows[..i], FlowRule(byId, Declared(nodes)))
    {
      CollectedStep(flows, FlowRule(byId, Declared(nodes)), i);
      issues := FlowIssues(byId, selectors, flows[i], issues, Declared(nodes));
    }
    CollectedWhole(flows, FlowRule(byId, Declared(nodes)));
  }

  /** The report of the reference check is empty exactly when the model is closed. */
  lemma NoIssuesIffClosed(nodes: seq<ModelNode>, relations: seq<ModelRelation>, flows: seq<Flow>, safe: Text -> bool,
                          parents: seq<Issue>, entries: seq<Text>, topology: seq<Issue>)
    requires ShapedNodes(nodes) && UniqueIds(nodes)
    requires ParentReport(ById(nodes), ById(nodes).Keys, parents, entries)
    requires multiset(topology) == Expected(ById(nodes), relations)
    ensures parents + Collected(Sites(nodes), SiteRule(safe)) + Collected(relations, EndRule(ById(nodes))) + topology
            + Collected(flows, FlowRule(ById(nodes), Declared(nodes))) == []
            <==> ReferenceClosed(nodes, relations, flows, safe)
  {
    hide ById, Forest, TopologyValid, FlowClosed, Expected, Distinct, ParentReport, UniqueIds, EndsExist, Collected, SiteRule,
      EndRule, FlowReport, Sites, SafePaths, DeclaredIn;
    var byId := ById(nodes);
    ShapedById(nodes);
    ReportsNothingIffForest(byId, parents, entries);
    SitesQuiet(Sites(nodes), safe);
    EndsQuiet(byId, relations);
    EmptyBagIffEmpty(topology, Expected(byId, relations));
    EmptyIffValid(byId, relations);
    FlowsQuiet(byId, Declared(nodes), flows);
  }

  lemma FlowsQuiet(byId: Nodes, declared: seq<Selector>, flows: seq<Flow>)
    ensures Collected(flows, FlowRule(byId, declared)) == [] <==> forall f :: f in flows ==> FlowClosed(byId, declared, f)
  {
    hide FlowReport, FlowClosed;
    CollectedNothing(flows, FlowRule(byId, declared));
    forall k | 0 <= k < |flows| ensures FlowReport(byId, declared, flows[k]) == [] <==> FlowClosed(byId, declared, flows[k]) {
      FlowQuiet(byId, declared, flows[k]);
    }
  }

  // ---------------------------------------------------------------------------------------------
  // Consequences

  /** In a closed model each step names exactly one declared sink, over all nodes. */
  lemma EvidenceNamesOneSink(
    nodes: seq<ModelNode>, relations: seq<ModelRelation>, flows: seq<Flow>, safe: Text -> bool, f: Flow, s: Step)
    requires ReferenceClosed(nodes, relations, flows, safe) && f in flows && f.required && HasStep(f, s)
    ensures exists i :: 0 <= i < |Declared(nodes)| && Declared(nodes)[i] == s.evidence &&
                        forall j :: 0 <= j < |Declared(nodes)| && Declared(nodes)[j] == s.evidence ==> j == i
  {
    hide ById, Forest, TopologyValid, EndsExist, HasStep, SafePaths, Sites, Distinct, DeclaredIn;
    assert FlowClosed(ById(nodes), Declared(nodes), f);
    assert StepClosed(f, Declared(nodes), s);
    hide ReferenceClosed, FlowClosed, StepClosed, Declared;
    OnePlace(Declared(nodes), s.evidence);
  }

  lemma OnePlace<T>(s: seq<T>, x: T)
    requires Distinct(s) && x in s
    ensures exists i :: 0 <= i < |s| && s[i] == x && forall j :: 0 <= j < |s| && s[j] == x ==> j == i
  {
    var i :| 0 <= i < |s| && s[i] == x;
  }

  lemma {:induction false} NestingIsParent(byId: Nodes, id: Text, n: nat)
    requires Iter(Nesting(byId), id, n).Some?
    ensures Iter(Next(byId), id, n) == Iter(Nesting(byId), id, n)
  {
    if n > 0 {
      NestingIsParent(byId, id, n - 1);
    }
  }

  /** After a parent walk that found nothing, the topology check can report neither a missing parent nor a cycle. */
  lemma QuietParentsQuietNesting(byId: Nodes, relations: seq<ModelRelation>, issues: seq<Issue>, entries: seq<Text>, id: Text)
    requires Shaped(byId) && ParentReport(byId, byId.Keys, issues, entries) && issues == []
    ensures Expected(byId, relations)[Issue(id, PARENT, NS_PARENT_MISSING)] == 0
    ensures Expected(byId, relations)[Issue(id, PARENT, NS_PARENT_CYCLE)] == 0
  {
    hide Expected, ParentReport;
    ReportsNothingIffForest(byId, issues, entries);
    NamespaceIssueReported(byId, relations, id, NS_PARENT_MISSING);
    CycleIssueIffEndless(byId, relations, id);
    if IsNamespace(byId, id) {
      RootsEnd(byId, id);
      ForestNestingEnds(byId, id);
      NoMissingFault(byId, id);
    }
  }

  lemma ForestNestingEnds(byId: Nodes, id: Text)
    requires id in byId && EndsAtRoot(byId, id)
    ensures Ends(Nesting(byId), id)
  {
    var y :| Reaches(Next(byId), id, y) && y in byId && byId[y].parent.Missing?;
    EndReached(Next(byId), id, y);
    var n: nat :| Iter(Next(byId), id, n).None?;
    if Iter(Nesting(byId), id, n).Some? { NestingIsParent(byId, id, n); }
  }

  lemma NoMissingFault(byId: Nodes, id: Text)
    requires Shaped(byId) && id in byId && !Dangling(byId, id)
    ensures NamespaceFault(byId, id) != Some(NS_PARENT_MISSING)
  {
    assert |NS_PARENT_CYCLE| == 31 && |NS_PARENT_MISSING| == 33 && |NS_PARENT_KIND| == 38;
  }
}

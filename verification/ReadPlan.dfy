/** The canonical projection read plan: packages/contracts/src/ports.ts. The digest function is a parameter. */
module ReadPlan {
  import opened Options
  import opened JsonText
  import opened JsonReadability
  import opened Sorting

  datatype Query = Query(
    schemaVersion: Text, viewId: Text, semanticLevel: Option<Text>, taskSessionId: Option<Text>, focus: Option<Text>,
    expandedOccurrenceIds: Option<seq<Text>>, depth: SafeInt, maxNodes: SafeInt, maxRelations: SafeInt)

  datatype PlanKind = OverviewAggregate | FocusedNeighborhood | BoundedContext

  datatype Limits = Limits(
    maxEntities: int, maxRelations: int, maxConstraints: int, maxBindings: int, maxBacklinks: int, maxGraphRows: int)

  datatype Plan = Plan(
    kind: PlanKind, queryDigest: Text, semanticLevel: Text, focusSubjectId: Option<Text>, expandedKinds: seq<Text>,
    depth: int, limits: Limits)

  const QUERY_VERSION: Text := U("archcontext.explorer-projection-query/v2")
  const VIEWS: seq<Text> := [
    U("system-map"), U("task-impact"), U("drift-pressure"), U("data-flow"), U("external-integrations")]
  const TEXT_ORDER: (Text, Text) -> bool := (a, b) => TextLe(a, b)

  function Level(q: Query): Text { if q.semanticLevel.Some? then q.semanticLevel.value else U("context") }

  function Ids(q: Query): seq<Text> { if q.expandedOccurrenceIds.Some? then q.expandedOccurrenceIds.value else [] }

  function Normal(ids: seq<Text>): seq<Text> { Sort(Dedupe(ids), TEXT_ORDER) }

  function Texts(ids: seq<Text>): (r: seq<Json>)
    ensures |r| == |ids| && forall i :: 0 <= i < |ids| ==> r[i] == Str(ids[i])
  {
    seq(|ids|, i requires 0 <= i < |ids| => Str(ids[i]))
  }

  function OrNull(t: Option<Text>): Json { if t.Some? then Str(t.value) else Null }

  // What is digested, with its keys in canonical order.
  function QueryJson(q: Query): Json {
    Obj([Member(U("budget"), Obj([Member(U("maxNodes"), Int(q.maxNodes)), Member(U("maxRelations"), Int(q.maxRelations))])),
         Member(U("depth"), Int(q.depth)),
         Member(U("expandedOccurrenceIds"), Arr(Texts(Normal(Ids(q))))),
         Member(U("focus"), if q.focus.Some? then Obj([Member(U("subjectId"), Str(q.focus.value))]) else Null),
         Member(U("schemaVersion"), Str(q.schemaVersion)),
         Member(U("semanticLevel"), Str(Level(q))),
         Member(U("taskSessionId"), OrNull(q.taskSessionId)),
         Member(U("viewId"), Str(q.viewId))])
  }

  function QueryText(q: Query): Text { Stringify(QueryJson(q)) }

  predicate Valid(q: Query) {
    q.schemaVersion == QUERY_VERSION && q.viewId in VIEWS && 0 <= q.depth <= 2 &&
    1 <= q.maxNodes <= 1_000 && 0 <= q.maxRelations <= 5_000
  }

  function Clamp(n: int, most: int): int { if n > most then most else if n < 1 then 1 else n }

  function PlanLimits(q: Query): Limits {
    var constraints := Clamp(q.maxNodes * 2, 2_000);
    Limits(q.maxNodes, q.maxRelations, constraints, Clamp(q.maxNodes * 4, 4_000), Clamp(q.maxNodes * 8, 8_000),
           q.maxNodes + q.maxRelations + constraints)
  }

  function KindPrefix(viewId: Text): Text { U("occurrence.") + viewId + U(".group.kind.") }

  // The kinds named by the ids that start with the prefix.
  function KindsOf(ids: seq<Text>, prefix: Text): seq<Text> {
    if ids == [] then []
    else (if prefix <= ids[0] then [ids[0][|prefix|..]] else []) + KindsOf(ids[1..], prefix)
  }

  function CanonicalReadPlan(q: Query, digest: Text -> Text): Option<Plan> {
    if !Valid(q) then None
    else Some(Plan(
      if Level(q) == U("overview") then OverviewAggregate
      else if q.focus.Some? then FocusedNeighborhood else BoundedContext,
      digest(QueryText(q)), Level(q), q.focus, Normal(KindsOf(Ids(q), KindPrefix(q.viewId))), q.depth, PlanLimits(q)))
  }

  // ---------------------------------------------------------------------------------------------

  lemma NormalSame(a: seq<Text>, b: seq<Text>)
    ensures Normal(a) == Normal(b) <==> Covered(a, b) && Covered(b, a)
    ensures forall x :: x in Normal(a) <==> x in a
  {
    TextOrder();
    forall x, y | x in a && y in a && TEXT_ORDER(x, y) && TEXT_ORDER(y, x) ensures x == y { TextLeAntisymmetric(x, y); }
    DedupeSorted(a, b, TEXT_ORDER);
  }

  // The parts of a query the plan can tell apart: its ids only as a set.
  ghost predicate SameQuery(p: Query, q: Query) {
    && p.schemaVersion == q.schemaVersion && p.viewId == q.viewId && SameLevel(p.semanticLevel, q.semanticLevel)
    && p.taskSessionId == q.taskSessionId && p.focus == q.focus && p.depth == q.depth
    && p.maxNodes == q.maxNodes && p.maxRelations == q.maxRelations
    && SameIds(p, q)
  }

  // A level that is left out is the context level.
  predicate SameLevel(a: Option<Text>, b: Option<Text>) {
    a == b || (a.None? && b == Some(U("context"))) || (b.None? && a == Some(U("context")))
  }

  predicate Expands(q: Query, id: Text) { q.expandedOccurrenceIds.Some? && id in q.expandedOccurrenceIds.value }

  ghost predicate SameIds(p: Query, q: Query) { forall id :: Expands(p, id) <==> Expands(q, id) }

  lemma SameIdsIff(p: Query, q: Query)
    ensures SameIds(p, q) <==> Covered(Ids(p), Ids(q)) && Covered(Ids(q), Ids(p))
  {
    forall id ensures Expands(p, id) <==> id in Ids(p) {}
    forall id ensures Expands(q, id) <==> id in Ids(q) {}
    if SameIds(p, q) {
      forall i | 0 <= i < |Ids(p)| ensures Ids(p)[i] in Ids(q) {
        var id := Ids(p)[i];
        assert id in Ids(p) && Expands(p, id);
      }
      forall i | 0 <= i < |Ids(q)| ensures Ids(q)[i] in Ids(p) {
        var id := Ids(q)[i];
        assert id in Ids(q) && Expands(q, id);
      }
    } else {
      var id :| Expands(p, id) != Expands(q, id);
      if id in Ids(p) { var i :| 0 <= i < |Ids(p)| && Ids(p)[i] == id; }
      if id in Ids(q) { var i :| 0 <= i < |Ids(q)| && Ids(q)[i] == id; }
    }
  }

  lemma SameLevelIff(p: Query, q: Query)
    ensures SameLevel(p.semanticLevel, q.semanticLevel) <==> Level(p) == Level(q)
  {}

  lemma TextsInjective(a: seq<Text>, b: seq<Text>)
    requires Texts(a) == Texts(b)
    ensures a == b
  {
    forall i | 0 <= i < |a| ensures a[i] == b[i] {
      assert Texts(a)[i] == Texts(b)[i];
    }
  }

  /** The digested text is the same exactly for queries that differ in the order or repetition of their ids alone. */
  lemma QueryTextIff(p: Query, q: Query)
    ensures QueryText(p) == QueryText(q) <==> SameQuery(p, q)
  {
    hide Normal, Covered, SameLevel, SameIds, Level, Ids;
    NormalSame(Ids(p), Ids(q));
    SameIdsIff(p, q);
    SameLevelIff(p, q);
    if QueryText(p) == QueryText(q) {
      var u, v := QueryJson(p), QueryJson(q);
      StringifyInjective(u, v);
      forall i | 0 <= i < 8 ensures u.members[i].value == v.members[i].value {}
      var a, b := u.members[0].value, v.members[0].value;
      assert a.members[0].value == b.members[0].value && a.members[1].value == b.members[1].value;
      SameParts(p, q);
    }
  }

  lemma SameParts(p: Query, q: Query)
    requires QueryJson(p) == QueryJson(q)
    ensures p.schemaVersion == q.schemaVersion && p.viewId == q.viewId && Level(p) == Level(q)
    ensures p.taskSessionId == q.taskSessionId && p.focus == q.focus && Normal(Ids(p)) == Normal(Ids(q))
  {
    hide Normal, Level;
    var u, v := QueryJson(p).members, QueryJson(q).members;
    assert u[2].value == v[2].value && u[3].value == v[3].value && u[4].value == v[4].value;
    assert u[5].value == v[5].value && u[6].value == v[6].value && u[7].value == v[7].value;
    TextsInjective(Normal(Ids(p)), Normal(Ids(q)));
    if p.focus.Some? { assert u[3].value.members[0].value == v[3].value.members[0].value; }
  }

  lemma {:induction false} KindsIff(ids: seq<Text>, prefix: Text, kind: Text)
    ensures kind in KindsOf(ids, prefix) <==> prefix + kind in ids
  {
    if ids != [] {
      KindsIff(ids[1..], prefix, kind);
      assert prefix <= ids[0] ==> ids[0] == prefix + ids[0][|prefix|..];
      assert (prefix + kind)[|prefix|..] == kind && prefix <= prefix + kind;
    }
  }

  /** The expanded kinds are exactly those the ids name, and queries with the same ids expand the same kinds. */
  lemma ExpandedKinds(p: Query, q: Query, digest: Text -> Text)
    requires Valid(p) && Valid(q)
    ensures forall kind :: kind in CanonicalReadPlan(p, digest).value.expandedKinds <==> Expands(p, KindPrefix(p.viewId) + kind)
    ensures SameQuery(p, q) ==> CanonicalReadPlan(p, digest) == CanonicalReadPlan(q, digest)
  {
    hide Normal, KindPrefix, QueryText, Level, Ids, SameIds, SameLevel;
    SameIdsIff(p, q);
    SameLevelIff(p, q);
    HasIds(p);
    var a, b := KindsOf(Ids(p), KindPrefix(p.viewId)), KindsOf(Ids(q), KindPrefix(q.viewId));
    NormalSame(a, b);
    forall kind ensures kind in a <==> KindPrefix(p.viewId) + kind in Ids(p) { KindsIff(Ids(p), KindPrefix(p.viewId), kind); }
    if SameQuery(p, q) {
      QueryTextIff(p, q);
      forall i | 0 <= i < |a| ensures a[i] in b {
        KindsIff(Ids(p), KindPrefix(p.viewId), a[i]);
        KindsIff(Ids(q), KindPrefix(q.viewId), a[i]);
      }
      forall i | 0 <= i < |b| ensures b[i] in a {
        KindsIff(Ids(p), KindPrefix(p.viewId), b[i]);
        KindsIff(Ids(q), KindPrefix(q.viewId), b[i]);
      }
    }
  }

  lemma HasIds(q: Query)
    ensures forall id :: id in Ids(q) <==> Expands(q, id)
  {}

  /** A plan is made exactly for queries of this version and a known view within the three budgets; it names what was asked for. */
  lemma PlanIs(q: Query, digest: Text -> Text)
    ensures CanonicalReadPlan(q, digest).Some? <==>
            && q.schemaVersion == U("archcontext.explorer-projection-query/v2")
            && (exists i :: 0 <= i < |VIEWS| && VIEWS[i] == q.viewId)
            && (q.depth == 0 || q.depth == 1 || q.depth == 2)
            && 0 < q.maxNodes < 1_001 && -1 < q.maxRelations < 5_001
    ensures CanonicalReadPlan(q, digest).Some? ==>
              var plan := CanonicalReadPlan(q, digest).value;
              && (plan.kind.OverviewAggregate? <==> q.semanticLevel == Some(U("overview")))
              && (plan.kind.FocusedNeighborhood? <==> q.semanticLevel != Some(U("overview")) && q.focus.Some?)
              && (q.semanticLevel.Some? ==> plan.semanticLevel == q.semanticLevel.value)
              && (q.semanticLevel.None? ==> plan.semanticLevel == U("context"))
              && plan.queryDigest == digest(QueryText(q)) && plan.focusSubjectId == q.focus && plan.depth == q.depth
              && plan.limits.maxEntities == q.maxNodes && plan.limits.maxRelations == q.maxRelations
  {
    hide Normal, KindsOf, QueryText;
    assert U("overview")[0] != U("context")[0];
  }

  /** For every accepted query no cap binds, and the row limit is three times the nodes plus the relations. */
  lemma RowLimit(q: Query, digest: Text -> Text)
    requires Valid(q)
    ensures var limits := CanonicalReadPlan(q, digest).value.limits;
            limits.maxGraphRows == 3 * q.maxNodes + q.maxRelations && limits.maxConstraints == 2 * q.maxNodes &&
            limits.maxBindings == 4 * q.maxNodes && limits.maxBacklinks == 8 * q.maxNodes
  {
    hide Normal, KindsOf, QueryText;
  }
}

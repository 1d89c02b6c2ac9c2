/** The parsed architecture model: nodes, relations and flows, and the issues a validator reports. */
module NativeModel {
  import opened JsonText

  // A field of a record: absent, a string, or something else.
  datatype Attr = Missing | Txt(text: Text) | Foreign

  datatype Sink = Sink(id: Text, path: Text, symbol: Text)
  datatype EntrySymbol = EntrySymbol(name: Text, sinks: seq<Sink>)
  datatype Entrypoint = Entrypoint(id: Text, path: Text, symbols: seq<EntrySymbol>)

  datatype ModelNode = ModelNode(
    id: Attr, kind: Attr, parent: Attr, sourcePaths: seq<Text>, entrypoints: seq<Entrypoint>)

  datatype ModelRelation = ModelRelation(id: Attr, kind: Attr, source: Attr, target: Attr, via: Attr)

  datatype Issue = Issue(entityId: Text, field: Text, reason: Text)

  const UNDECLARED: Text := U("(undeclared)")

  // The id an issue names its record by.
  function NameOf(id: Attr): Text { if id.Txt? then id.text else UNDECLARED }

  const PARENT: Text := U("parent")
  const NAMESPACE: Text := U("namespace")

  // The Map from id to node; a later node replaces an earlier one.
  function ById(nodes: seq<ModelNode>): (m: map<Text, ModelNode>)
    ensures forall id :: id in m ==> m[id].id == Txt(id) && m[id] in nodes
    ensures forall n :: n in nodes && n.id.Txt? ==> n.id.text in m
    ensures |m| <= |nodes|
  {
    if nodes == [] then map[]
    else
      var last := nodes[|nodes| - 1];
      var m := ById(nodes[..|nodes| - 1]);
      assert forall n :: n in nodes ==> n in nodes[..|nodes| - 1] || n == last;
      if last.id.Txt? then m[last.id.text := last] else m
  }

  ghost predicate UniqueIds(nodes: seq<ModelNode>) {
    forall i, j :: 0 <= i < j < |nodes| && nodes[i].id.Txt? && nodes[j].id.Txt? ==> nodes[i].id != nodes[j].id
  }

  lemma ByIdUnique(nodes: seq<ModelNode>, n: ModelNode)
    requires UniqueIds(nodes) && n in nodes && n.id.Txt?
    ensures ById(nodes)[n.id.text] == n
  {
    var m := ById(nodes)[n.id.text];
    var i :| 0 <= i < |nodes| && nodes[i] == n;
    var j :| 0 <= j < |nodes| && nodes[j] == m;
    assert i == j;
  }

  // What the record schemas promise: string ids, and a parent that is absent or a string.
  predicate ShapedNodes(nodes: seq<ModelNode>) {
    forall i :: 0 <= i < |nodes| ==> nodes[i].id.Txt? && !nodes[i].parent.Foreign?
  }

  // The ids of the issues with this reason, in report order.
  function Reported(issues: seq<Issue>, reason: Text): seq<Text> {
    if issues == [] then []
    else
      var last := issues[|issues| - 1];
      Reported(issues[..|issues| - 1], reason) + if last.reason == reason then [last.entityId] else []
  }

  lemma ReportedAppend(issues: seq<Issue>, issue: Issue, reason: Text)
    ensures Reported(issues + [issue], reason)
            == Reported(issues, reason) + if issue.reason == reason then [issue.entityId] else []
  {
    assert (issues + [issue])[..|issues|] == issues;
  }
}

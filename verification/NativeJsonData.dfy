/** The JSON graph walk and JSON data: packages/contracts/src/native-context.ts, lines 189-205. */
module NativeJsonData {
  import opened Options
  import opened Sequences
  import opened JsonText
  import opened JsHeap
  import opened NativeJsonWalk

  // ---------------------------------------------------------------------------------------------
  // What the entries of an object are

  // An own enumerable property with a string key.
  predicate Listed(p: Property)
    ensures Listed(p) ==> p.key.Name? && !p.slot.Hole?
  {
    p.key.Name? && !p.slot.Hole? && p.slot.enumerable
  }

  lemma {:induction false} NamedEntriesIff(props: seq<Property>, child: Child)
    ensures child in NamedEntries(props) <==>
            exists i :: 0 <= i < |props| && Listed(props[i]) && child == Child(props[i].key.text, Read(props[i].slot))
  {
    hide Listed;
    if props != [] {
      var n := |props| - 1;
      NamedEntriesIff(props[..n], child);
      LastNamed(props, child);
      assert forall i :: 0 <= i < n ==> props[..n][i] == props[i];
    }
  }

  lemma LastNamed(props: seq<Property>, child: Child)
    requires props != []
    ensures var n := |props| - 1;
            child in NamedEntries(props) <==>
            child in NamedEntries(props[..n]) || (Listed(props[n]) && child == Child(props[n].key.text, Read(props[n].slot)))
  {}

  lemma {:induction false} IndexEntriesIff(slots: seq<Slot>, child: Child)
    ensures child in IndexEntries(slots) <==>
            exists i :: 0 <= i < |slots| && !slots[i].Hole? && slots[i].enumerable && child == Child(Digits(i), Read(slots[i]))
  {
    if slots != [] {
      var n := |slots| - 1;
      IndexEntriesIff(slots[..n], child);
      assert forall i :: 0 <= i < n ==> slots[..n][i] == slots[i];
    }
  }

  /** The entries of an object are its own enumerable string-keyed properties: of a list its elements under their indices too. */
  lemma ChildrenIff(o: Object, child: Child)
    ensures child in Children(o) <==>
            match o
            case List(_, slots, others) =>
              || (exists i :: 0 <= i < |slots| && !slots[i].Hole? && slots[i].enumerable && child == Child(Digits(i), Read(slots[i])))
              || (exists i :: 0 <= i < |others| && Listed(others[i]) && child == Child(others[i].key.text, Read(others[i].slot)))
            case Record(_, props) =>
              exists i :: 0 <= i < |props| && Listed(props[i]) && child == Child(props[i].key.text, Read(props[i].slot))
  {
    match o
    case List(_, slots, others) =>
      IndexEntriesIff(slots, child);
      NamedEntriesIff(others, child);
    case Record(_, props) => NamedEntriesIff(props, child);
  }

  lemma ElementEdge(h: Heap, a: nat, i: nat, b: nat)
    requires a in h && b in h && h[a].List? && i < |h[a].slots| && PlainSlot(h[a].slots[i]) && h[a].slots[i].value == Ref(b)
    ensures Edge(h, a, b)
  {
    hide Children;
    var child := Child(Digits(i), Read(h[a].slots[i]));
    ChildrenIff(h[a], child);
    var c :| 0 <= c < |Children(h[a])| && Children(h[a])[c] == child;
  }

  lemma FieldEdge(h: Heap, a: nat, i: nat, b: nat)
    requires a in h && b in h && h[a].Record? && i < |h[a].props| && h[a].props[i].key.Name?
    requires PlainSlot(h[a].props[i].slot) && h[a].props[i].slot.value == Ref(b)
    ensures Edge(h, a, b)
  {
    hide Children;
    var child := Child(h[a].props[i].key.text, Read(h[a].props[i].slot));
    ChildrenIff(h[a], child);
    var c :| 0 <= c < |Children(h[a])| && Children(h[a])[c] == child;
  }

  // ---------------------------------------------------------------------------------------------
  // Plain JSON data is never flagged

  // The value denotes j, and every object of it has the plain prototype.
  ghost predicate DenotesPlainly(h: Heap, v: Value, j: Json)
    decreases j
  {
    Denotes(h, v, j) &&
    match j
    case Arr(items) =>
      h[v.id].proto.PlainProto? && forall i :: 0 <= i < |items| ==> DenotesPlainly(h, h[v.id].slots[i].value, items[i])
    case Obj(members) =>
      h[v.id].proto.PlainProto? &&
      forall i :: 0 <= i < |members| ==> DenotesPlainly(h, h[v.id].props[i].slot.value, members[i].value)
    case _ => true
  }

  function Height(j: Json): nat {
    match j
    case Arr(items) => 1 + ItemsHeight(items)
    case Obj(members) => 1 + MembersHeight(members)
    case _ => 0
  }

  function ItemsHeight(items: seq<Json>): nat {
    if items == [] then 0 else Height(items[0]) + ItemsHeight(items[1..])
  }

  function MembersHeight(members: seq<Member>): nat {
    if members == [] then 0 else Height(members[0].value) + MembersHeight(members[1..])
  }

  lemma {:induction false} ItemHeight(items: seq<Json>, i: nat)
    requires i < |items|
    ensures Height(items[i]) <= ItemsHeight(items)
  {
    if i > 0 { ItemHeight(items[1..], i - 1); }
  }

  lemma {:induction false} MemberHeight(members: seq<Member>, i: nat)
    requires i < |members|
    ensures Height(members[i].value) <= MembersHeight(members)
  {
    if i > 0 { MemberHeight(members[1..], i - 1); }
  }

  // Each entry of a plain object denotes a smaller value.
  lemma ChildDenotes(h: Heap, id: nat, j: Json, child: Child) returns (k: Json)
    requires DenotesPlainly(h, Ref(id), j) && id in h && child in Children(h[id])
    ensures DenotesPlainly(h, child.value, k) && Height(k) < Height(j)
  {
    hide Children;
    ChildrenIff(h[id], child);
    if j.Arr? {
      var slots := h[id].slots;
      var i :| 0 <= i < |slots| && !slots[i].Hole? && slots[i].enumerable && child == Child(Digits(i), Read(slots[i]));
      ItemHeight(j.items, i);
      k := j.items[i];
    } else {
      var props := h[id].props;
      var i :| 0 <= i < |props| && Listed(props[i]) && child == Child(props[i].key.text, Read(props[i].slot));
      MemberHeight(j.members, i);
      k := j.members[i].value;
    }
  }

  lemma {:induction false} PathDenotes(h: Heap, j: Json, p: seq<nat>) returns (k: Json)
    requires IsPath(h, p) && DenotesPlainly(h, Ref(p[0]), j)
    ensures p[|p| - 1] in h && DenotesPlainly(h, Ref(p[|p| - 1]), k) && Height(k) + |p| <= Height(j) + 1
    decreases |p|
  {
    hide DenotesPlainly, Children;
    if |p| == 1 {
      k := j;
    } else {
      assert Edge(h, p[0], p[1]);
      var c :| 0 <= c < |Children(h[p[0]])| && Children(h[p[0]])[c].value == Ref(p[1]);
      var first := ChildDenotes(h, p[0], j, Children(h[p[0]])[c]);
      assert IsPath(h, p[1..]) by { TailPath(h, p); }
      k := PathDenotes(h, first, p[1..]);
    }
  }

  lemma TailPath(h: Heap, p: seq<nat>)
    requires IsPath(h, p) && |p| > 1
    ensures IsPath(h, p[1..])
  {
    assert Edge(h, p[0], p[1]);
    forall i | 0 <= i < |p[1..]| - 1 ensures Edge(h, p[1..][i], p[1..][i + 1]) {
      assert Edge(h, p[i + 1], p[i + 2]);
    }
  }

  /** Plain data of plain prototypes is never flagged. */
  lemma DataIsSafe(h: Heap, root: nat, j: Json)
    requires DenotesPlainly(h, Ref(root), j)
    ensures JsonSafe(h, root)
  {
    hide DenotesPlainly, Children, Edge;
    forall o | Reachable(h, root, o) ensures o in h && h[o].proto.PlainProto? && FiniteChildren(h[o]) && !OnCycle(h, o) {
      var p :| IsPath(h, p) && p[0] == root && p[|p| - 1] == o;
      var k := PathDenotes(h, j, p);
      PlainHere(h, o, k);
      forall c | 0 <= c < |Children(h[o])| ensures !Children(h[o])[c].value.NonFinite? {
        var l := ChildDenotes(h, o, k, Children(h[o])[c]);
        FiniteHere(h, Children(h[o])[c].value, l);
      }
      if OnCycle(h, o) {
        var q :| IsPath(h, q) && |q| >= 2 && q[0] == o && q[|q| - 1] == o;
        var l := PathDenotes(h, k, q);
        DenotesSame(h, o, k, l);
      }
    }
  }

  lemma PlainHere(h: Heap, id: nat, j: Json)
    requires DenotesPlainly(h, Ref(id), j)
    ensures id in h && h[id].proto.PlainProto?
  {}

  lemma FiniteHere(h: Heap, v: Value, j: Json)
    requires DenotesPlainly(h, v, j)
    ensures !v.NonFinite?
  {}

  lemma DenotesSame(h: Heap, id: nat, j: Json, k: Json)
    requires DenotesPlainly(h, Ref(id), j) && DenotesPlainly(h, Ref(id), k)
    ensures j == k
  {
    DenotesOne(h, Ref(id), j, k);
  }

  // ---------------------------------------------------------------------------------------------
  // What is not flagged is plain JSON data

  // Own data alone: values that JSON has, or could have if they were finite, and references into the heap.
  predicate OwnValue(h: Heap, v: Value) { ScalarData(v) || v.NonFinite? || IsObject(h, v) }

  predicate OwnData(h: Heap, o: Object) {
    match o
    case List(_, slots, others) =>
      others == [] && forall i :: 0 <= i < |slots| ==> PlainSlot(slots[i]) && OwnValue(h, slots[i].value)
    case Record(_, props) =>
      forall i :: 0 <= i < |props| ==> props[i].key.Name? && PlainSlot(props[i].slot) && OwnValue(h, props[i].slot.value)
  }

  ghost predicate OwnBelow(h: Heap, root: nat) { forall o :: Reachable(h, root, o) ==> o in h && OwnData(h, h[o]) }

  ghost predicate Meant(h: Heap, v: Value) { exists j :: Denotes(h, v, j) }

  ghost function Meaning(h: Heap, v: Value): (j: Json)
    requires Meant(h, v)
    ensures Denotes(h, v, j)
  {
    var j :| Denotes(h, v, j); j
  }

  lemma ListMeant(h: Heap, id: nat)
    requires id in h && h[id].List? && h[id].proto.PlainProto? && OwnData(h, h[id])
    requires forall i :: 0 <= i < |h[id].slots| ==> Meant(h, h[id].slots[i].value)
    ensures Meant(h, Ref(id))
  {
    var slots := h[id].slots;
    var items := seq(|slots|, i requires 0 <= i < |slots| => Meaning(h, slots[i].value));
    assert Denotes(h, Ref(id), Arr(items));
  }

  lemma RecordMeant(h: Heap, id: nat)
    requires id in h && h[id].Record? && h[id].proto.PlainProto? && OwnData(h, h[id])
    requires forall i :: 0 <= i < |h[id].props| ==> Meant(h, h[id].props[i].slot.value)
    ensures Meant(h, Ref(id))
  {
    var props := h[id].props;
    var members := seq(|props|, i requires 0 <= i < |props| => Member(props[i].key.text, Meaning(h, props[i].slot.value)));
    assert Denotes(h, Ref(id), Obj(members));
  }

  lemma ScalarMeant(h: Heap, v: Value)
    requires ScalarData(v)
    ensures Meant(h, v)
  {
    assert Denotes(h, v, FromScalar(v));
  }

  // A path of distinct objects from the root.
  ghost predicate Walked(h: Heap, root: nat, path: seq<nat>) {
    IsPath(h, path) && path[0] == root && Distinct(path) && forall o :: o in path ==> o in h
  }

  lemma WalkOn(h: Heap, root: nat, path: seq<nat>, next: nat)
    requires Walked(h, root, path) && JsonSafe(h, root) && Edge(h, path[|path| - 1], next)
    ensures next !in path && Walked(h, root, path + [next])
  {
    var n := |path|;
    assert IsPath(h, path + [next]) by { LongerPath(h, path, next); }
    if next in path {
      var k :| 0 <= k < n && path[k] == next;
      CycleOn(h, path + [next], k);
      assert IsPath(h, path[..k + 1]) by { PrefixPath(h, path, k + 1); }
      assert Reachable(h, root, next);
    }
    DistinctGrow(path, next);
  }

  lemma LongerPath(h: Heap, path: seq<nat>, next: nat)
    requires IsPath(h, path) && Edge(h, path[|path| - 1], next)
    ensures IsPath(h, path + [next])
  {
    hide Edge;
  }

  lemma PrefixPath(h: Heap, path: seq<nat>, n: nat)
    requires IsPath(h, path) && 0 < n <= |path|
    ensures IsPath(h, path[..n])
  {
    hide Edge;
  }

  lemma CycleOn(h: Heap, path: seq<nat>, k: nat)
    requires IsPath(h, path) && k < |path| - 1 && path[k] == path[|path| - 1] && path[k] in h
    ensures OnCycle(h, path[k])
  {
    hide Edge;
    var q := path[k..];
    assert IsPath(h, q);
  }

  lemma PathReaches(h: Heap, root: nat, path: seq<nat>)
    requires Walked(h, root, path)
    ensures path != [] && Reachable(h, root, path[|path| - 1]) && path[|path| - 1] in h
  {
    hide Edge;
    assert path[|path| - 1] in path;
  }

  ghost function On(path: seq<nat>): (s: set<nat>)
    ensures forall o :: o in s <==> o in path
  {
    set o | o in path
  }

  lemma {:induction false} SafeMeant(h: Heap, root: nat, path: seq<nat>)
    requires Walked(h, root, path) && JsonSafe(h, root) && OwnBelow(h, root)
    ensures Meant(h, Ref(path[|path| - 1]))
    decreases h.Keys - On(path), 1
  {
    hide Walked, Children, Meant;
    PathReaches(h, root, path);
    var id := path[|path| - 1];
    assert OwnData(h, h[id]);
    if h[id].List? {
      forall i | 0 <= i < |h[id].slots| ensures Meant(h, h[id].slots[i].value) {
        var v := h[id].slots[i].value;
        if v.Ref? {
          ElementEdge(h, id, i, v.id);
          NextMeant(h, root, path, v.id);
        } else {
          NoInfinite(h, root, id, Child(Digits(i), v));
          ScalarMeant(h, v);
        }
      }
      ListMeant(h, id);
    } else {
      forall i | 0 <= i < |h[id].props| ensures Meant(h, h[id].props[i].slot.value) {
        var v := h[id].props[i].slot.value;
        if v.Ref? {
          FieldEdge(h, id, i, v.id);
          NextMeant(h, root, path, v.id);
        } else {
          NoInfinite(h, root, id, Child(h[id].props[i].key.text, v));
          ScalarMeant(h, v);
        }
      }
      RecordMeant(h, id);
    }
  }

  lemma NextMeant(h: Heap, root: nat, path: seq<nat>, next: nat)
    requires Walked(h, root, path) && JsonSafe(h, root) && OwnBelow(h, root)
    requires Edge(h, path[|path| - 1], next)
    ensures Meant(h, Ref(next))
    decreases h.Keys - On(path), 0
  {
    hide Meant;
    WalkOn(h, root, path, next);
    PathReaches(h, root, path + [next]);
    assert (path + [next])[|path|] == next;
    assert On(path + [next]) == On(path) + {next};
    SafeMeant(h, root, path + [next]);
  }

  lemma NoInfinite(h: Heap, root: nat, id: nat, child: Child)
    requires JsonSafe(h, root) && Reachable(h, root, id) && id in h && OwnValue(h, child.value) && !child.value.Ref?
    requires match h[id]
             case List(_, slots, _) =>
               exists i :: 0 <= i < |slots| && PlainSlot(slots[i]) && child == Child(Digits(i), slots[i].value)
             case Record(_, props) =>
               exists i :: 0 <= i < |props| && props[i].key.Name? && PlainSlot(props[i].slot) && child == Child(props[i].key.text, props[i].slot.value)
    ensures ScalarData(child.value)
  {
    hide Children, Reachable, OnCycle;
    if h[id].List? {
      var i :| 0 <= i < |h[id].slots| && PlainSlot(h[id].slots[i]) && child == Child(Digits(i), h[id].slots[i].value);
      assert child == Child(Digits(i), Read(h[id].slots[i]));
    } else {
      var i :| 0 <= i < |h[id].props| && h[id].props[i].key.Name? && PlainSlot(h[id].props[i].slot)
               && child == Child(h[id].props[i].key.text, h[id].props[i].slot.value);
      assert Listed(h[id].props[i]) && child == Child(h[id].props[i].key.text, Read(h[id].props[i].slot));
    }
    ChildrenIff(h[id], child);
    var c :| 0 <= c < |Children(h[id])| && Children(h[id])[c] == child;
    assert FiniteChildren(h[id]);
  }

  /** What is made of own data alone and not flagged is plain JSON data. */
  lemma SafeIsData(h: Heap, root: nat)
    requires root in h && JsonSafe(h, root) && OwnBelow(h, root)
    ensures exists j :: Denotes(h, Ref(root), j)
  {
    hide JsonSafe, OwnBelow, Denotes;
    StartWalked(h, root);
    SafeMeant(h, root, [root]);
  }

  lemma StartWalked(h: Heap, root: nat)
    requires root in h
    ensures Walked(h, root, [root])
  {}
}

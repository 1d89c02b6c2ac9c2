/** The JSON graph walk over one parsed record: packages/contracts/src/native-context.ts, lines 186-206. */
module NativeJsonWalk {
  import opened Options
  import opened Sequences
  import opened JsonText
  import opened JsHeap

  // ---------------------------------------------------------------------------------------------
  // The object graph

  datatype Child = Child(key: Text, value: Value)

  // Own enumerable string-named entries; an accessor is read.
  function NamedEntries(props: seq<Property>): seq<Child> {
    if props == [] then []
    else
      var p := props[|props| - 1];
      NamedEntries(props[..|props| - 1]) +
      if p.key.Name? && !p.slot.Hole? && p.slot.enumerable then [Child(p.key.text, Read(p.slot))] else []
  }

  function IndexEntries(slots: seq<Slot>): seq<Child> {
    if slots == [] then []
    else
      var n := |slots| - 1;
      IndexEntries(slots[..n]) +
      if !slots[n].Hole? && slots[n].enumerable then [Child(Digits(n), Read(slots[n]))] else []
  }

  function Read(s: Slot): Value
    requires !s.Hole?
  {
    if s.Data? then s.value else s.result
  }

  function Children(o: Object): seq<Child> {
    match o
    case List(_, slots, others) => IndexEntries(slots) + NamedEntries(others)
    case Record(_, props) => NamedEntries(props)
  }

  ghost predicate Edge(h: Heap, a: nat, b: nat) {
    a in h && b in h && exists c :: 0 <= c < |Children(h[a])| && Children(h[a])[c].value == Ref(b)
  }

  ghost predicate IsPath(h: Heap, p: seq<nat>) {
    p != [] && p[0] in h && forall i :: 0 <= i < |p| - 1 ==> Edge(h, p[i], p[i + 1])
  }

  ghost predicate Reachable(h: Heap, a: nat, b: nat) {
    exists p :: IsPath(h, p) && p[0] == a && p[|p| - 1] == b
  }

  ghost predicate OnCycle(h: Heap, a: nat) {
    exists p :: IsPath(h, p) && |p| >= 2 && p[0] == a && p[|p| - 1] == a
  }

  ghost predicate FiniteChildren(o: Object) {
    forall c :: 0 <= c < |Children(o)| ==> !Children(o)[c].value.NonFinite?
  }

  /** Everything reachable from the root is plain, finite and on no cycle. */
  ghost predicate JsonSafe(h: Heap, root: nat) {
    forall o :: Reachable(h, root, o) ==> o in h && h[o].proto.PlainProto? && FiniteChildren(h[o]) && !OnCycle(h, o)
  }

  // ---------------------------------------------------------------------------------------------
  // Field paths

  function FieldOf(field: Text, key: Text): Text { field + [0x2E] + key }

  const ROOT_FIELD: Text := [0x24]

  // What a sequence of child positions leads to, and how the walk spells it.
  function TrailValue(h: Heap, root: nat, trail: seq<nat>): Option<Value> {
    if trail == [] then Some(Ref(root))
    else
      var v :- TrailValue(h, root, trail[..|trail| - 1]);
      if IsObject(h, v) && trail[|trail| - 1] < |Children(h[v.id])|
      then Some(Children(h[v.id])[trail[|trail| - 1]].value) else None
  }

  function TrailField(h: Heap, root: nat, trail: seq<nat>): Text
    requires TrailValue(h, root, trail).Some?
  {
    if trail == [] then ROOT_FIELD
    else
      var init := trail[..|trail| - 1];
      FieldOf(TrailField(h, root, init), Children(h[TrailValue(h, root, init).value.id])[trail[|trail| - 1]].key)
  }

  /** The field path leads from the root to the value. */
  ghost predicate At(h: Heap, root: nat, v: Value, field: Text) {
    exists trail :: TrailValue(h, root, trail) == Some(v) && TrailField(h, root, trail) == field
  }

  lemma AtChild(h: Heap, root: nat, id: nat, field: Text, c: nat)
    requires At(h, root, Ref(id), field) && id in h && c < |Children(h[id])|
    ensures At(h, root, Children(h[id])[c].value, FieldOf(field, Children(h[id])[c].key))
  {
    var trail :| TrailValue(h, root, trail) == Some(Ref(id)) && TrailField(h, root, trail) == field;
    var longer := trail + [c];
    assert longer[..|longer| - 1] == trail;
    assert TrailValue(h, root, longer) == Some(Children(h[id])[c].value);
  }

  lemma ReachableStep(h: Heap, a: nat, b: nat, c: nat)
    requires Reachable(h, a, b) && Edge(h, b, c)
    ensures Reachable(h, a, c)
  {
    var p :| IsPath(h, p) && p[0] == a && p[|p| - 1] == b;
    assert IsPath(h, p + [c]);
  }

  lemma {:induction false} TrailReachable(h: Heap, root: nat, trail: seq<nat>, id: nat)
    requires root in h && id in h && TrailValue(h, root, trail) == Some(Ref(id))
    ensures Reachable(h, root, id)
  {
    if trail == [] {
      assert IsPath(h, [root]);
    } else {
      var init := trail[..|trail| - 1];
      var parent := TrailValue(h, root, init).value.id;
      TrailReachable(h, root, init, parent);
      ReachableStep(h, root, parent, id);
    }
  }

  lemma AtReachable(h: Heap, root: nat, id: nat, field: Text)
    requires root in h && id in h && At(h, root, Ref(id), field)
    ensures Reachable(h, root, id)
  {
    var trail :| TrailValue(h, root, trail) == Some(Ref(id)) && TrailField(h, root, trail) == field;
    TrailReachable(h, root, trail, id);
  }

  // ---------------------------------------------------------------------------------------------
  // The stack, seen as frames: an exit marker and the entries of its object still to visit

  datatype Item = Item(value: Value, field: Text, exit: bool)

  datatype Frame = Frame(id: nat, field: Text, left: nat)

  datatype Walk = Walk(start: bool, frames: seq<Frame>, finished: seq<nat>)

  function Entries(children: seq<Child>, field: Text): (items: seq<Item>)
    ensures |items| == |children|
    ensures forall c :: 0 <= c < |children| ==> items[c] == Item(children[c].value, FieldOf(field, children[c].key), false)
  {
    seq(|children|, c requires 0 <= c < |children| => Item(children[c].value, FieldOf(field, children[c].key), false))
  }

  ghost function FrameItems(h: Heap, f: Frame): (items: seq<Item>)
    requires f.id in h && f.left <= |Children(h[f.id])|
    ensures |items| == 1 + f.left
  {
    [Item(Ref(f.id), f.field, true)] + Entries(Children(h[f.id]), f.field)[..f.left]
  }

  ghost predicate FramesFit(h: Heap, frames: seq<Frame>) {
    forall k :: 0 <= k < |frames| ==> frames[k].id in h && frames[k].left <= |Children(h[frames[k].id])|
  }

  function Base(root: nat, start: bool): seq<Item> { if start then [Item(Ref(root), ROOT_FIELD, false)] else [] }

  ghost function Stack(h: Heap, base: seq<Item>, frames: seq<Frame>): seq<Item>
    requires FramesFit(h, frames)
    decreases |frames|
  {
    if frames == [] then base
    else
      var n := |frames| - 1;
      Stack(h, base, frames[..n]) + FrameItems(h, frames[n])
  }

  predicate Settled(h: Heap, v: Value, finished: seq<nat>) {
    !v.NonFinite? && (IsObject(h, v) ==> v.id in finished)
  }

  ghost predicate FinishedGood(h: Heap, finished: seq<nat>) {
    forall i :: 0 <= i < |finished| ==>
      finished[i] in h && h[finished[i]].proto.PlainProto? && finished[i] !in finished[..i] &&
      forall c :: 0 <= c < |Children(h[finished[i]])| ==> Settled(h, Children(h[finished[i]])[c].value, finished[..i])
  }

  // The visited entries of frame k are settled, or are the object of the frame above it.
  ghost predicate FrameGood(h: Heap, root: nat, w: Walk, k: nat)
    requires k < |w.frames|
  {
    var f := w.frames[k];
    f.id in h && h[f.id].proto.PlainProto? && f.left <= |Children(h[f.id])| && At(h, root, Ref(f.id), f.field) &&
    f.id !in w.finished && (forall m :: 0 <= m < k ==> w.frames[m].id != f.id) &&
    (k + 1 < |w.frames| ==>
       f.left < |Children(h[f.id])| && Children(h[f.id])[f.left].value == Ref(w.frames[k + 1].id)) &&
    forall c :: f.left <= c < |Children(h[f.id])| ==>
      Settled(h, Children(h[f.id])[c].value, w.finished) || (k + 1 < |w.frames| && c == f.left)
  }

  ghost predicate Good(h: Heap, root: nat, w: Walk) {
    root in h && FinishedGood(h, w.finished) &&
    (forall k :: 0 <= k < |w.frames| ==> FrameGood(h, root, w, k)) &&
    (if w.start then w.frames == [] && w.finished == []
     else if w.frames == [] then root in w.finished
     else w.frames[0].id == root)
  }

  ghost function Active(w: Walk): set<nat> { set k | 0 <= k < |w.frames| :: w.frames[k].id }

  // ---------------------------------------------------------------------------------------------
  // Steps

  // The top entry, popped.
  ghost function Visited(w: Walk): Walk
    requires w.frames != [] ==> w.frames[|w.frames| - 1].left > 0
  {
    if w.frames == [] then w.(start := false)
    else
      var n := |w.frames| - 1;
      w.(frames := w.frames[..n] + [w.frames[n].(left := w.frames[n].left - 1)])
  }

  ghost function Entered(h: Heap, w: Walk, id: nat, field: Text): Walk
    requires id in h
  {
    w.(frames := w.frames + [Frame(id, field, |Children(h[id])|)])
  }

  ghost function Left(w: Walk): Walk
    requires w.frames != []
  {
    var n := |w.frames| - 1;
    w.(frames := w.frames[..n], finished := w.finished + [w.frames[n].id])
  }

  // The top frame yields its exit marker when nothing is left in it, else the last entry left.
  lemma StackAtExit(h: Heap, base: seq<Item>, frames: seq<Frame>)
    requires FramesFit(h, frames) && frames != [] && frames[|frames| - 1].left == 0
    ensures var n, stack := |frames| - 1, Stack(h, base, frames);
            stack != [] && stack[|stack| - 1] == Item(Ref(frames[n].id), frames[n].field, true) &&
            stack[..|stack| - 1] == Stack(h, base, frames[..n])
  {}

  lemma StackAtEntry(h: Heap, base: seq<Item>, frames: seq<Frame>)
    requires FramesFit(h, frames) && frames != [] && frames[|frames| - 1].left > 0
    ensures var n, stack := |frames| - 1, Stack(h, base, frames);
            var f := frames[n];
            var child := Children(h[f.id])[f.left - 1];
            var fewer := frames[..n] + [f.(left := f.left - 1)];
            stack != [] && stack[|stack| - 1] == Item(child.value, FieldOf(f.field, child.key), false) &&
            FramesFit(h, fewer) && stack[..|stack| - 1] == Stack(h, base, fewer)
  {
    hide Children;
    var n, f := |frames| - 1, frames[|frames| - 1];
    var g := f.(left := f.left - 1);
    var fewer := frames[..n] + [g];
    assert fewer[..n] == frames[..n];
    var below, items := Stack(h, base, frames[..n]), FrameItems(h, f);
    assert items[..f.left] == FrameItems(h, g);
    assert (below + items)[..|below + items| - 1] == below + items[..f.left];
  }

  // Leaving an object: every child of it is settled.
  lemma LeaveGood(h: Heap, root: nat, w: Walk)
    requires Good(h, root, w) && w.frames != [] && w.frames[|w.frames| - 1].left == 0
    ensures Good(h, root, Left(w))
  {
    hide Children, At;
    var n := |w.frames| - 1;
    var f, v := w.frames[n], Left(w);
    assert FrameGood(h, root, w, n);
    forall i | 0 <= i < |v.finished|
      ensures v.finished[i] in h && h[v.finished[i]].proto.PlainProto? && v.finished[i] !in v.finished[..i] &&
              forall c :: 0 <= c < |Children(h[v.finished[i]])| ==>
                Settled(h, Children(h[v.finished[i]])[c].value, v.finished[..i])
    {
      assert v.finished[..i] == w.finished[..i];
    }
    forall k | 0 <= k < n ensures FrameGood(h, root, v, k) {
      assert FrameGood(h, root, w, k);
      assert w.frames[n].id != w.frames[k].id;
    }
    assert n > 0 ==> FrameGood(h, root, w, 0);
  }

  // A settled entry needs no visit.
  lemma SkipGood(h: Heap, root: nat, w: Walk)
    requires Good(h, root, w) && w.frames != []
    requires var f := w.frames[|w.frames| - 1];
             f.left > 0 && f.id in h && f.left <= |Children(h[f.id])| &&
             Settled(h, Children(h[f.id])[f.left - 1].value, w.finished)
    ensures Good(h, root, Visited(w))
  {
    hide Children, At, Settled;
    var n, v := |w.frames| - 1, Visited(w);
    forall k | 0 <= k < |v.frames| ensures FrameGood(h, root, v, k) {
      assert FrameGood(h, root, w, k);
      if k == n { assert forall m :: 0 <= m < n ==> v.frames[m] == w.frames[m]; }
    }
  }

  // A new plain object is entered above the frame that names it.
  lemma EnterGood(h: Heap, root: nat, w: Walk, id: nat, field: Text)
    requires Good(h, root, w) && id in h && h[id].proto.PlainProto? && At(h, root, Ref(id), field)
    requires id !in w.finished && id !in Active(w)
    requires if w.frames == [] then w.start && id == root
             else var f := w.frames[|w.frames| - 1];
                  f.left > 0 && f.id in h && f.left <= |Children(h[f.id])| && Children(h[f.id])[f.left - 1].value == Ref(id)
    ensures Good(h, root, Entered(h, Visited(w), id, field))
  {
    hide Children, At, Settled;
    var v := Entered(h, Visited(w), id, field);
    var n := |w.frames|;
    forall k | 0 <= k < |v.frames| ensures FrameGood(h, root, v, k) {
      if k < n {
        assert FrameGood(h, root, w, k);
        assert forall m :: 0 <= m < k ==> v.frames[m].id == w.frames[m].id;
      } else {
        assert forall m :: 0 <= m < k ==> v.frames[m].id == w.frames[m].id && w.frames[m].id in Active(w);
      }
    }
  }

  // ---------------------------------------------------------------------------------------------
  // What a finished walk or a flag means

  lemma {:induction false} FramePath(h: Heap, root: nat, w: Walk, k: nat)
    requires Good(h, root, w) && k < |w.frames|
    ensures IsPath(h, Ids(w.frames[k..]))
    decreases |w.frames| - k
  {
    hide Children, At, Settled;
    assert FrameGood(h, root, w, k);
    var p := Ids(w.frames[k..]);
    if k + 1 < |w.frames| {
      FramePath(h, root, w, k + 1);
      assert FrameGood(h, root, w, k + 1);
      var q := Ids(w.frames[k + 1..]);
      assert p == [w.frames[k].id] + q;
      assert Edge(h, p[0], p[1]);
      assert forall i :: 1 <= i < |p| - 1 ==> p[i] == q[i - 1] && p[i + 1] == q[i];
    }
  }

  function Ids(frames: seq<Frame>): (ids: seq<nat>)
    ensures |ids| == |frames| && forall i :: 0 <= i < |frames| ==> ids[i] == frames[i].id
  {
    seq(|frames|, i requires 0 <= i < |frames| => frames[i].id)
  }

  // Meeting an active object again closes a real cycle.
  lemma ActiveOnCycle(h: Heap, root: nat, w: Walk, id: nat)
    requires Good(h, root, w) && id in Active(w)
    requires w.frames != [] ==>
               var f := w.frames[|w.frames| - 1];
               0 < f.left && f.id in h && f.left <= |Children(h[f.id])| && Ref(id) == Children(h[f.id])[f.left - 1].value
    ensures OnCycle(h, id)
  {
    hide Children, At, Settled, FinishedGood;
    var k :| 0 <= k < |w.frames| && w.frames[k].id == id;
    FramePath(h, root, w, k);
    assert FrameGood(h, root, w, k);
    var p := Ids(w.frames[k..]);
    var q := p + [id];
    assert Edge(h, p[|p| - 1], id);
    assert IsPath(h, q);
  }

  // Paths from a finished object only go to objects finished earlier.
  lemma {:induction false} FinishedPath(h: Heap, finished: seq<nat>, i: nat, p: seq<nat>) returns (j: nat)
    requires FinishedGood(h, finished) && i < |finished| && IsPath(h, p) && p[0] == finished[i]
    ensures j <= i && finished[j] == p[|p| - 1] && (|p| >= 2 ==> j < i)
    decreases |p|
  {
    if |p| == 1 {
      j := i;
    } else {
      assert Edge(h, p[0], p[1]);
      var c :| 0 <= c < |Children(h[p[0]])| && Children(h[p[0]])[c].value == Ref(p[1]);
      assert Settled(h, Children(h[p[0]])[c].value, finished[..i]);
      var m :| 0 <= m < i && finished[m] == p[1];
      forall k | 0 <= k < |p[1..]| - 1 ensures Edge(h, p[1..][k], p[1..][k + 1]) {
        assert Edge(h, p[k + 1], p[k + 2]);
      }
      j := FinishedPath(h, finished, m, p[1..]);
    }
  }

  lemma FinishedDistinct(h: Heap, finished: seq<nat>, i: nat, j: nat)
    requires FinishedGood(h, finished) && i < j < |finished|
    ensures finished[i] != finished[j]
  {
    assert finished[..j][i] == finished[i];
  }

  lemma FinishedSafe(h: Heap, root: nat, finished: seq<nat>)
    requires FinishedGood(h, finished) && root in finished
    ensures JsonSafe(h, root) && forall o :: Reachable(h, root, o) ==> o in finished
  {
    var r :| 0 <= r < |finished| && finished[r] == root;
    forall o | Reachable(h, root, o)
      ensures o in finished && o in h && h[o].proto.PlainProto? && FiniteChildren(h[o]) && !OnCycle(h, o)
    {
      var p :| IsPath(h, p) && p[0] == root && p[|p| - 1] == o;
      var j := FinishedPath(h, finished, r, p);
      if OnCycle(h, o) {
        var q :| IsPath(h, q) && |q| >= 2 && q[0] == o && q[|q| - 1] == o;
        var k := FinishedPath(h, finished, j, q);
        FinishedDistinct(h, finished, k, j);
      }
    }
  }

  // ---------------------------------------------------------------------------------------------
  // The walk

  datatype Invariant = NonJsonNumber | NonJsonCycle | NonJsonPrototype

  datatype Flag = Flag(field: Text, reason: Invariant)

  /** A flag names the path of a value that really breaks its rule. */
  ghost predicate Witnessed(h: Heap, root: nat, flag: Flag) {
    match flag.reason
    case NonJsonNumber => At(h, root, NonFinite, flag.field)
    case NonJsonCycle => exists o :: o in h && At(h, root, Ref(o), flag.field) && OnCycle(h, o)
    case NonJsonPrototype => exists o :: o in h && At(h, root, Ref(o), flag.field) && !h[o].proto.PlainProto?
  }

  lemma WitnessUnsafe(h: Heap, root: nat, flag: Flag)
    requires root in h && Witnessed(h, root, flag)
    ensures !JsonSafe(h, root)
  {
    match flag.reason
    case NonJsonNumber =>
      var trail :| TrailValue(h, root, trail) == Some(NonFinite) && TrailField(h, root, trail) == flag.field;
      var init := trail[..|trail| - 1];
      var parent := TrailValue(h, root, init).value.id;
      TrailReachable(h, root, init, parent);
      assert Children(h[parent])[trail[|trail| - 1]].value.NonFinite?;
      assert !FiniteChildren(h[parent]);
    case NonJsonCycle =>
      var o :| o in h && At(h, root, Ref(o), flag.field) && OnCycle(h, o);
      AtReachable(h, root, o, flag.field);
    case NonJsonPrototype =>
      var o :| o in h && At(h, root, Ref(o), flag.field) && !h[o].proto.PlainProto?;
      AtReachable(h, root, o, flag.field);
  }


  // The popped item, if it is an exit marker.
  lemma ExitTop(h: Heap, root: nat, w: Walk, stack: seq<Item>)
    requires Good(h, root, w) && FramesFit(h, w.frames) && stack == Stack(h, Base(root, w.start), w.frames)
    requires stack != [] && stack[|stack| - 1].exit
    ensures w.frames != [] && w.frames[|w.frames| - 1].left == 0
    ensures stack[|stack| - 1].value == Ref(w.frames[|w.frames| - 1].id)
    ensures FramesFit(h, Left(w).frames) && stack[..|stack| - 1] == Stack(h, Base(root, w.start), Left(w).frames)
  {
    hide Children, FrameGood, FinishedGood;
    if w.frames != [] {
      if w.frames[|w.frames| - 1].left == 0 {
        StackAtExit(h, Base(root, w.start), w.frames);
      } else {
        StackAtEntry(h, Base(root, w.start), w.frames);
      }
    }
  }

  // The popped item, if it is an entry: its field path leads to its value.
  lemma EntryTop(h: Heap, root: nat, w: Walk, stack: seq<Item>)
    requires Good(h, root, w) && FramesFit(h, w.frames) && stack == Stack(h, Base(root, w.start), w.frames)
    requires stack != [] && !stack[|stack| - 1].exit
    ensures At(h, root, stack[|stack| - 1].value, stack[|stack| - 1].field)
    ensures if w.frames == [] then w.start && stack[|stack| - 1].value == Ref(root)
            else var f := w.frames[|w.frames| - 1];
                 f.left > 0 && f.id in h && f.left <= |Children(h[f.id])| &&
                 stack[|stack| - 1].value == Children(h[f.id])[f.left - 1].value
    ensures FramesFit(h, Visited(w).frames)
    ensures stack[..|stack| - 1] == Stack(h, Base(root, Visited(w).start), Visited(w).frames)
  {
    hide Children, FinishedGood, FrameGood, At, Stack;
    if w.frames == [] {
      EmptyStack(h, Base(root, w.start));
      EmptyStack(h, Base(root, false));
      RootAt(h, root);
    } else {
      if w.frames[|w.frames| - 1].left == 0 {
        StackAtExit(h, Base(root, w.start), w.frames);
      } else {
        StackAtEntry(h, Base(root, w.start), w.frames);
        TopAt(h, root, w, |w.frames| - 1);
      }
    }
  }

  lemma EmptyStack(h: Heap, base: seq<Item>)
    ensures Stack(h, base, []) == base
  {}

  lemma RootAt(h: Heap, root: nat)
    ensures At(h, root, Ref(root), ROOT_FIELD)
  {
    assert TrailValue(h, root, []) == Some(Ref(root)) && TrailField(h, root, []) == ROOT_FIELD;
  }

  lemma TopAt(h: Heap, root: nat, w: Walk, n: nat)
    requires n < |w.frames| && FrameGood(h, root, w, n) && w.frames[n].left > 0
    ensures var f := w.frames[n];
            var child := Children(h[f.id])[f.left - 1];
            At(h, root, child.value, FieldOf(f.field, child.key))
  {
    hide Children, At;
    AtChild(h, root, w.frames[n].id, w.frames[n].field, w.frames[n].left - 1);
  }

  // How the set of active objects moves with the frames.
  lemma ActiveSteps(h: Heap, root: nat, w: Walk)
    requires Good(h, root, w) && w.frames != []
    ensures Active(Left(w)) == Active(w) - {w.frames[|w.frames| - 1].id}
    ensures w.frames[|w.frames| - 1].left > 0 ==> Active(Visited(w)) == Active(w)
  {
    hide Children, At, Settled, FinishedGood;
    var n := |w.frames| - 1;
    assert FrameGood(h, root, w, n);
    forall id | id in Active(w) && id != w.frames[n].id ensures id in Active(Left(w)) {
      var k :| 0 <= k < |w.frames| && w.frames[k].id == id;
      assert Left(w).frames[k].id == id;
    }
    if w.frames[n].left > 0 {
      forall k | 0 <= k <= n ensures Visited(w).frames[k].id == w.frames[k].id {}
      assert forall id :: id in Active(w) ==> exists k :: 0 <= k <= n && w.frames[k].id == id && Visited(w).frames[k].id == id;
    }
  }

  lemma ActiveEntered(h: Heap, w: Walk, id: nat, field: Text)
    requires id in h
    ensures Active(Entered(h, w, id, field)) == Active(w) + {id}
  {
    var v := Entered(h, w, id, field);
    assert v.frames[|w.frames|].id == id;
    forall x | x in Active(w) ensures x in Active(v) {
      var k :| 0 <= k < |w.frames| && w.frames[k].id == x;
      assert v.frames[k].id == x;
    }
  }

  // The stack of an entered object: its exit marker, then all its entries.
  lemma EnteredStack(h: Heap, base: seq<Item>, frames: seq<Frame>, id: nat, field: Text)
    requires FramesFit(h, frames) && id in h
    ensures var more := frames + [Frame(id, field, |Children(h[id])|)];
            FramesFit(h, more) &&
            Stack(h, base, more)
            == Stack(h, base, frames) + [Item(Ref(id), field, true)] + Entries(Children(h[id]), field)
  {
    hide Children;
    var f := Frame(id, field, |Children(h[id])|);
    assert (frames + [f])[..|frames|] == frames;
    assert Entries(Children(h[id]), field)[..f.left] == Entries(Children(h[id]), field);
  }

  // A popped entry that names a new plain object is entered.
  lemma EnterEntry(h: Heap, root: nat, w: Walk, id: nat, field: Text)
    requires Good(h, root, w) && id in h && h[id].proto.PlainProto? && At(h, root, Ref(id), field)
    requires id !in w.finished && id !in Active(w)
    requires if w.frames == [] then w.start && id == root
             else var f := w.frames[|w.frames| - 1];
                  f.left > 0 && f.id in h && f.left <= |Children(h[f.id])| && Ref(id) == Children(h[f.id])[f.left - 1].value
    requires FramesFit(h, Visited(w).frames)
    ensures var v := Entered(h, Visited(w), id, field);
            Good(h, root, v) && FramesFit(h, v.frames) && Active(v) == Active(w) + {id} && Reachable(h, root, id) &&
            Stack(h, Base(root, v.start), v.frames)
            == Stack(h, Base(root, v.start), Visited(w).frames) + [Item(Ref(id), field, true)] + Entries(Children(h[id]), field)
  {
    hide Children, At, FinishedGood, FrameGood, Stack, Entries, Reachable;
    EnterGood(h, root, w, id, field);
    EnteredStack(h, Base(root, Visited(w).start), Visited(w).frames, id, field);
    ActiveEntered(h, Visited(w), id, field);
    AtReachable(h, root, id, field);
    if w.frames != [] { ActiveSteps(h, root, w); }
  }

  lemma FlagWitnessed(h: Heap, root: nat, item: Item, reason: Invariant)
    requires root in h && At(h, root, item.value, item.field)
    requires match reason
             case NonJsonNumber => item.value.NonFinite?
             case NonJsonCycle => IsObject(h, item.value) && OnCycle(h, item.value.id)
             case NonJsonPrototype => IsObject(h, item.value) && !h[item.value.id].proto.PlainProto?
    ensures Witnessed(h, root, Flag(item.field, reason)) && !JsonSafe(h, root)
  {
    assert Witnessed(h, root, Flag(item.field, reason));
    WitnessUnsafe(h, root, Flag(item.field, reason));
  }

  // An empty stack: the root is finished, and so is everything reachable from it.
  lemma EmptyMeansSafe(h: Heap, root: nat, w: Walk)
    requires Good(h, root, w) && FramesFit(h, w.frames) && Stack(h, Base(root, w.start), w.frames) == []
    ensures JsonSafe(h, root) && Active(w) == {} && forall o :: Reachable(h, root, o) ==> o in w.finished
  {
    hide Children, At, Settled, FinishedGood, FrameGood, JsonSafe, Reachable;
    if w.frames == [] {
      EmptyStack(h, Base(root, w.start));
      FinishedSafe(h, root, w.finished);
    }
  }

  // A popped entry whose value is settled needs no visit.
  lemma SkipEntry(h: Heap, root: nat, w: Walk, v: Value)
    requires Good(h, root, w)
    requires if w.frames == [] then w.start && v == Ref(root)
             else var f := w.frames[|w.frames| - 1];
                  f.left > 0 && f.id in h && f.left <= |Children(h[f.id])| && v == Children(h[f.id])[f.left - 1].value
    requires !v.NonFinite? && (IsObject(h, v) ==> v.id in w.finished)
    ensures Good(h, root, Visited(w)) && Active(Visited(w)) == Active(w)
  {
    hide Children, At, FinishedGood, FrameGood;
    SkipGood(h, root, w);
    ActiveSteps(h, root, w);
  }

  // The sets the walk keeps, and the objects it has expanded so far.
  ghost predicate Tracks(h: Heap, root: nat, w: Walk, active: set<nat>, done: set<nat>, expanded: seq<nat>) {
    active == Active(w) && (forall id :: id in done <==> id in w.finished) &&
    (forall id :: id in expanded <==> id in active || id in done) && Distinct(expanded) &&
    (forall id :: id in expanded ==> id in h && Reachable(h, root, id))
  }

  lemma TracksLeave(h: Heap, root: nat, w: Walk, active: set<nat>, done: set<nat>, expanded: seq<nat>, id: nat)
    requires Good(h, root, w) && w.frames != [] && w.frames[|w.frames| - 1] == Frame(id, w.frames[|w.frames| - 1].field, 0)
    requires Tracks(h, root, w, active, done, expanded)
    ensures Good(h, root, Left(w)) && Tracks(h, root, Left(w), active - {id}, done + {id}, expanded)
    ensures id in active && id !in done && id in h
  {
    hide Children, At, FinishedGood, Reachable;
    assert FrameGood(h, root, w, |w.frames| - 1);
    hide FrameGood;
    LeaveGood(h, root, w);
    ActiveSteps(h, root, w);
    assert w.frames[|w.frames| - 1].id in Active(w);
  }

  lemma TracksEnter(
    h: Heap, root: nat, w: Walk, v: Walk, active: set<nat>, done: set<nat>, expanded: seq<nat>, id: nat)
    requires Tracks(h, root, w, active, done, expanded) && id !in active && id !in done
    requires id in h && Reachable(h, root, id) && Active(v) == Active(w) + {id} && v.finished == w.finished
    ensures Tracks(h, root, v, active + {id}, done, expanded + [id])
  {
    hide Reachable;
  }

  lemma TracksMeans(h: Heap, root: nat, w: Walk, active: set<nat>, done: set<nat>, expanded: seq<nat>)
    requires Tracks(h, root, w, active, done, expanded)
    ensures Distinct(expanded) && forall o :: o in expanded ==> Reachable(h, root, o)
    ensures forall o :: o in w.finished ==> o in expanded
  {}

  lemma StartGood(h: Heap, root: nat)
    requires root in h
    ensures var w := Walk(true, [], []);
            Good(h, root, w) && FramesFit(h, w.frames) && Tracks(h, root, w, {}, {}, []) &&
            Stack(h, Base(root, true), w.frames) == [Item(Ref(root), ROOT_FIELD, false)]
  {}

  // One popped entry: flag it, skip it, or enter the object it names.
  method Visit(h: Heap, root: nat, item: Item, below: seq<Item>, active: set<nat>, done: set<nat>,
               ghost w: Walk, ghost expanded: seq<nat>)
    returns (flag: Option<Flag>, pending: seq<Item>, entered: set<nat>, ghost v: Walk, ghost grown: seq<nat>)
    requires root in h && Good(h, root, w) && FramesFit(h, w.frames) && Tracks(h, root, w, active, done, expanded)
    requires below + [item] == Stack(h, Base(root, w.start), w.frames) && !item.exit
    ensures flag.Some? ==> Witnessed(h, root, flag.value) && !JsonSafe(h, root) && grown == expanded
    ensures flag.None? ==>
              Good(h, root, v) && FramesFit(h, v.frames) && Tracks(h, root, v, entered, done, grown) &&
              pending == Stack(h, Base(root, v.start), v.frames) &&
              (if grown == expanded then entered == active && pending == below
               else item.value.Ref? && item.value.id in h && item.value.id !in active + done &&
                    entered == active + {item.value.id})
  {
    hide Children, At, Reachable, Good, FramesFit, JsonSafe, Stack, Entries, Witnessed, Active, Distinct;
    assert (below + [item])[..|below|] == below && (below + [item])[|below|] == item;
    EntryTop(h, root, w, below + [item]);
    flag, pending, entered, v, grown := None, below, active, Visited(w), expanded;
    if item.value.NonFinite? {
      flag := Some(Flag(item.field, NonJsonNumber));
      FlagWitnessed(h, root, item, NonJsonNumber);
    } else if !IsObject(h, item.value) {
      SkipEntry(h, root, w, item.value);
    } else if item.value.id in active {
      ActiveOnCycle(h, root, w, item.value.id);
      flag := Some(Flag(item.field, NonJsonCycle));
      FlagWitnessed(h, root, item, NonJsonCycle);
    } else if item.value.id in done {
      SkipEntry(h, root, w, item.value);
    } else if !h[item.value.id].proto.PlainProto? {
      flag := Some(Flag(item.field, NonJsonPrototype));
      FlagWitnessed(h, root, item, NonJsonPrototype);
    } else {
      var id := item.value.id;
      EnterEntry(h, root, w, id, item.field);
      v := Entered(h, Visited(w), id, item.field);
      TracksEnter(h, root, w, v, active, done, expanded, id);
      entered := active + {id};
      pending := below + [Item(item.value, item.field, true)] + Entries(Children(h[id]), item.field);
      grown := expanded + [id];
    }
  }

  method JsonWalk(h: Heap, root: nat) returns (flag: Option<Flag>, ghost expanded: seq<nat>)
    requires root in h
    ensures flag.None? <==> JsonSafe(h, root)
    ensures flag.Some? ==> Witnessed(h, root, flag.value)
    ensures Distinct(expanded) && forall o :: o in expanded ==> Reachable(h, root, o)
    ensures flag.None? ==> forall o :: Reachable(h, root, o) ==> o in expanded
  {
    hide Children, At, Reachable, Good, FramesFit, JsonSafe, Stack, Entries, Witnessed, Active, Tracks, Distinct;
    var pending := [Item(Ref(root), ROOT_FIELD, false)];
    var active: set<nat>, done: set<nat> := {}, {};
    ghost var w := Walk(true, [], []);
    expanded := [];
    StartGood(h, root);
    while pending != []
      invariant Good(h, root, w) && FramesFit(h, w.frames) && pending == Stack(h, Base(root, w.start), w.frames)
      invariant Tracks(h, root, w, active, done, expanded)
      decreases h.Keys - (active + done), |pending|
    {
      var item, below := pending[|pending| - 1], pending[..|pending| - 1];
      if item.exit {
        ExitTop(h, root, w, pending);
        TracksLeave(h, root, w, active, done, expanded, item.value.id);
        pending := below;
        assert active + done == active - {item.value.id} + (done + {item.value.id});
        active, done := active - {item.value.id}, done + {item.value.id};
        w := Left(w);
      } else {
        TracksMeans(h, root, w, active, done, expanded);
        flag, pending, active, w, expanded := Visit(h, root, item, below, active, done, w, expanded);
        if flag.Some? { return; }
      }
    }
    flag := None;
    EmptyMeansSafe(h, root, w);
    TracksMeans(h, root, w, active, done, expanded);
  }
}

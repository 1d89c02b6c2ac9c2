/** Details of a closed fact schema: packages/contracts/src/failure.ts, localFactValue and localFactsFor. */
module FactPolicies {
  import opened Options
  import opened JsonText
  import opened JsonFacts
  import opened JsHeap
  import opened FailureModel
  import opened PlainPolicies

  predicate ShortText(t: Text, limit: nat, accepts: Text -> bool) { Bytes(t) <= limit && accepts(t) }

  // One element of a list of pairs, rebuilt with its two fields in a fixed order.
  function Pair(h: Heap, slot: Slot, first: Text, second: Text, pairs: (Text, Text) -> bool): Option<Json> {
    if !slot.Data? || !IsDataRecord(h, slot.value) || |h[slot.value.id].props| != 2 then None
    else
      var a :- Read(h, slot.value, first);
      var b :- Read(h, slot.value, second);
      if a.StrV? && b.StrV? && pairs(a.text, b.text) then Some(PairOf(first, a.text, second, b.text)) else None
  }

  function PairOf(first: Text, a: Text, second: Text, b: Text): Json {
    Obj([Member(first, Str(a)), Member(second, Str(b))])
  }

  function PairItems(h: Heap, slots: seq<Slot>, first: Text, second: Text, pairs: (Text, Text) -> bool)
    : (r: Option<seq<Json>>)
    ensures r.Some? ==> |r.value| == |slots|
  {
    if slots == [] then Some([])
    else
      var n := |slots| - 1;
      var init :- PairItems(h, slots[..n], first, second, pairs);
      var last :- Pair(h, slots[n], first, second, pairs);
      Some(init + [last])
  }

  function RuleValue(h: Heap, rule: Rule, v: Value): Option<Json> {
    match rule
    case Uint => if IsCount(v) then Some(Int(v.value)) else None
    case Boolean => if v.BoolV? then Some(Bool(v.flag)) else None
    case Word(accepts) => if v.StrV? && ShortText(v.text, SHORT, accepts) then Some(Str(v.text)) else None
    case LongWord(accepts, orNull) =>
      if orNull && v.NullV? then Some(Null)
      else if v.StrV? && ShortText(v.text, LONG, accepts) then Some(Str(v.text)) else None
    case Words(count, limit, accepts) =>
      if !IsClosedList(h, v) || |h[v.id].slots| > count then None
      else
        var items :- TextItems(h[v.id].slots, t => ShortText(t, limit, accepts));
        Some(Arr(items))
    case Pairs(least, most, first, second, pairs) =>
      if !IsClosedList(h, v) || !(least <= |h[v.id].slots| <= most) then None
      else
        var items :- PairItems(h, h[v.id].slots, first, second, pairs);
        Some(Arr(items))
  }

  // The declared facts in schema order; a required one must be there and every one must meet its rule.
  function Declared(h: Heap, props: seq<Property>, schema: seq<FactRule>): Option<seq<Member>> {
    if schema == [] then Some([])
    else
      var n := |schema| - 1;
      var init :- Declared(h, props, schema[..n]);
      DeclaredStep(h, props, schema[n], init)
  }

  function DeclaredStep(h: Heap, props: seq<Property>, fact: FactRule, init: seq<Member>): Option<seq<Member>> {
    match Find(props, Name(fact.key))
    case None => if fact.optional then Some(init) else None
    case Some(slot) =>
      if !slot.Data? then None
      else
        var value :- RuleValue(h, fact.rule, slot.value);
        Some(init + [Member(fact.key, value)])
  }

  // The undeclared fields: counted, unless they could matter or hide structure.
  function UndeclaredStep(c: Table, schema: seq<FactRule>, h: Heap, p: Property, omitted: nat): Option<nat> {
    if !p.key.Name? || Declares(schema, p.key.text) || !p.slot.Data? then Some(omitted)
    else if p.key.text == OMITTED && IsCount(p.slot.value) then Some(omitted + p.slot.value.value)
    else if c.critical(p.key.text) || IsObject(h, p.slot.value) then None
    else Some(omitted + 1)
  }

  function Undeclared(c: Table, schema: seq<FactRule>, h: Heap, props: seq<Property>): Option<nat> {
    if props == [] then Some(0)
    else
      var omitted :- Undeclared(c, schema, h, props[..|props| - 1]);
      UndeclaredStep(c, schema, h, props[|props| - 1], omitted)
  }

  function FactDetails(c: Table, schema: seq<FactRule>, h: Heap, input: Value): (r: Option<Json>)
    ensures r.Some? ==> r.value.Obj?
  {
    if !IsDataRecord(h, input) then None
    else
      var declared :- Declared(h, h[input.id].props, schema);
      var omitted :- Undeclared(c, schema, h, h[input.id].props);
      Some(Obj(declared + Closing(omitted)))
  }

  // ---------------------------------------------------------------------------------------------
  // The loops

  lemma DeclaredPrefix(h: Heap, props: seq<Property>, schema: seq<FactRule>, i: nat)
    requires i < |schema|
    ensures Declared(h, props, schema[..i + 1])
            == match Declared(h, props, schema[..i])
               case None => None
               case Some(init) => DeclaredStep(h, props, schema[i], init)
  {
    assert schema[..i + 1][..i] == schema[..i] && schema[..i + 1] != [];
  }

  lemma {:induction false} DeclaredFails(h: Heap, props: seq<Property>, schema: seq<FactRule>, i: nat)
    requires i <= |schema| && Declared(h, props, schema[..i]).None?
    ensures Declared(h, props, schema).None?
    decreases |schema| - i
  {
    if i == |schema| {
      assert schema[..i] == schema;
    } else {
      DeclaredPrefix(h, props, schema, i);
      DeclaredFails(h, props, schema, i + 1);
    }
  }

  lemma UndeclaredPrefix(c: Table, schema: seq<FactRule>, h: Heap, props: seq<Property>, i: nat)
    requires i < |props|
    ensures Undeclared(c, schema, h, props[..i + 1])
            == match Undeclared(c, schema, h, props[..i])
               case None => None
               case Some(omitted) => UndeclaredStep(c, schema, h, props[i], omitted)
  {
    assert props[..i + 1][..i] == props[..i] && props[..i + 1] != [];
  }

  lemma {:induction false} UndeclaredFails(c: Table, schema: seq<FactRule>, h: Heap, props: seq<Property>, i: nat)
    requires i <= |props| && Undeclared(c, schema, h, props[..i]).None?
    ensures Undeclared(c, schema, h, props).None?
    decreases |props| - i
  {
    if i == |props| {
      assert props[..i] == props;
    } else {
      UndeclaredPrefix(c, schema, h, props, i);
      UndeclaredFails(c, schema, h, props, i + 1);
    }
  }

  method LocalFactsFor(c: Table, schema: seq<FactRule>, h: Heap, input: Value) returns (r: Option<Json>)
    ensures r == FactDetails(c, schema, h, input)
  {
    if !IsDataRecord(h, input) { return None; }
    var props := h[input.id].props;
    hide DeclaredStep, UndeclaredStep;
    var kept := [];
    for i := 0 to |schema|
      invariant Declared(h, props, schema[..i]) == Some(kept)
    {
      DeclaredPrefix(h, props, schema, i);
      var next := DeclaredStep(h, props, schema[i], kept);
      if next.None? {
        DeclaredFails(h, props, schema, i + 1);
        return None;
      }
      kept := next.value;
    }
    assert schema[..|schema|] == schema;
    var omitted: nat := 0;
    for i := 0 to |props|
      invariant Undeclared(c, schema, h, props[..i]) == Some(omitted)
    {
      UndeclaredPrefix(c, schema, h, props, i);
      var next := UndeclaredStep(c, schema, h, props[i], omitted);
      if next.None? {
        UndeclaredFails(c, schema, h, props, i + 1);
        return None;
      }
      omitted := next.value;
    }
    assert props[..|props|] == props;
    return Some(Obj(kept + Closing(omitted)));
  }

  // ---------------------------------------------------------------------------------------------
  // What each rule lets through

  predicate PairForm(j: Json, first: Text, second: Text, pairs: (Text, Text) -> bool) {
    j.Obj? && |j.members| == 2 && j.members[0].key == first && j.members[1].key == second &&
    j.members[0].value.Str? && j.members[1].value.Str? && pairs(j.members[0].value.text, j.members[1].value.text)
  }

  predicate RuleForm(rule: Rule, j: Json) {
    match rule
    case Uint => j.Int? && j.value >= 0
    case Boolean => j.Bool?
    case Word(accepts) => j.Str? && ShortText(j.text, SHORT, accepts)
    case LongWord(accepts, orNull) => (orNull && j.Null?) || (j.Str? && ShortText(j.text, LONG, accepts))
    case Words(count, limit, accepts) => j.Arr? && |j.items| <= count && AreTexts(j.items, t => ShortText(t, limit, accepts))
    case Pairs(least, most, first, second, pairs) =>
      j.Arr? && least <= |j.items| <= most && forall i :: 0 <= i < |j.items| ==> PairForm(j.items[i], first, second, pairs)
  }

  lemma {:induction false} PairItemsForm(
    h: Heap, slots: seq<Slot>, first: Text, second: Text, pairs: (Text, Text) -> bool)
    requires PairItems(h, slots, first, second, pairs).Some?
    ensures forall i :: 0 <= i < |slots| ==> PairForm(PairItems(h, slots, first, second, pairs).value[i], first, second, pairs)
  {
    hide Read, IsDataRecord;
    if slots != [] {
      PairItemsForm(h, slots[..|slots| - 1], first, second, pairs);
    }
  }

  lemma PairAgain(h: Heap, slot: Slot, first: Text, second: Text, pairs: (Text, Text) -> bool, j: Json)
    requires PlainSlot(slot) && Denotes(h, slot.value, j) && PairForm(j, first, second, pairs)
    ensures Pair(h, slot, first, second, pairs) == Some(j)
  {
    hide Find;
    DenotedField(h, slot.value, j.members, 0);
    DenotedField(h, slot.value, j.members, 1);
    assert j.members == [Member(first, Str(j.members[0].value.text)), Member(second, Str(j.members[1].value.text))];
  }

  lemma {:induction false} PairItemsAgain(
    h: Heap, slots: seq<Slot>, first: Text, second: Text, pairs: (Text, Text) -> bool, items: seq<Json>)
    requires |slots| == |items|
    requires forall i :: 0 <= i < |items| ==>
               PlainSlot(slots[i]) && Denotes(h, slots[i].value, items[i]) && PairForm(items[i], first, second, pairs)
    ensures PairItems(h, slots, first, second, pairs) == Some(items)
  {
    hide Pair, PairForm, Denotes;
    if slots != [] {
      var n := |slots| - 1;
      PairItemsAgain(h, slots[..n], first, second, pairs, items[..n]);
      PairAgain(h, slots[n], first, second, pairs, items[n]);
      assert items == items[..n] + [items[n]];
    }
  }

  lemma RuleValueForm(h: Heap, rule: Rule, v: Value)
    requires RuleValue(h, rule, v).Some?
    ensures RuleForm(rule, RuleValue(h, rule, v).value)
  {
    hide PairForm, AreTexts;
    match rule
    case Words(count, limit, accepts) => TextItemsForm(h[v.id].slots, t => ShortText(t, limit, accepts));
    case Pairs(least, most, first, second, pairs) => PairItemsForm(h, h[v.id].slots, first, second, pairs);
    case _ =>
  }

  lemma RuleValueAgain(h: Heap, rule: Rule, v: Value, j: Json)
    requires RuleForm(rule, j) && Denotes(h, v, j)
    ensures RuleValue(h, rule, v) == Some(j)
  {
    hide PairForm, AreTexts, IsClosedList;
    match rule
    case Words(count, limit, accepts) =>
      DenotedList(h, v, j.items);
      TextItemsAgain(h, h[v.id].slots, j.items, t => ShortText(t, limit, accepts));
    case Pairs(least, most, first, second, pairs) =>
      DenotedList(h, v, j.items);
      PairItemsAgain(h, h[v.id].slots, first, second, pairs, j.items);
    case _ =>
  }

  // ---------------------------------------------------------------------------------------------
  // Taking the details again

  // What the members hold under one key of the schema.
  predicate Selected(h: Heap, props: seq<Property>, fact: FactRule, members: seq<Member>) {
    match Find(props, Name(fact.key))
    case None => fact.optional && Lookup(members, fact.key).None?
    case Some(slot) => slot.Data? && RuleValue(h, fact.rule, slot.value).Some? &&
                       Lookup(members, fact.key) == RuleValue(h, fact.rule, slot.value)
  }

  // The member under each key of the schema, and no others.
  ghost predicate Selects(h: Heap, props: seq<Property>, schema: seq<FactRule>, members: seq<Member>) {
    (forall i :: 0 <= i < |schema| ==> Selected(h, props, schema[i], members)) &&
    (forall m :: m in members ==> Declares(schema, m.key))
  }

  lemma {:induction false} LookupAppend(members: seq<Member>, m: Member, key: Text)
    ensures Lookup(members + [m], key)
            == if Lookup(members, key).Some? then Lookup(members, key) else if m.key == key then Some(m.value) else None
  {
    if members == [] {
      assert (members + [m])[1..] == [];
    } else {
      assert (members + [m])[1..] == members[1..] + [m];
      LookupAppend(members[1..], m, key);
    }
  }

  lemma LookupDeclared(schema: seq<FactRule>, members: seq<Member>, key: Text)
    requires !Declares(schema, key) && forall m :: m in members ==> Declares(schema, m.key)
    ensures Lookup(members, key).None?
  {
    LookupAbsent(members, key);
  }

  lemma {:induction false} DeclaredSelects(h: Heap, props: seq<Property>, schema: seq<FactRule>)
    requires DistinctSchema(schema) && Declared(h, props, schema).Some?
    ensures Selects(h, props, schema, Declared(h, props, schema).value)
  {
    hide DeclaredStep, Selected, Declares;
    if schema != [] {
      var n := |schema| - 1;
      DeclaredSelects(h, props, schema[..n]);
      var init := Declared(h, props, schema[..n]).value;
      NewKey(schema);
      LookupDeclared(schema[..n], init, schema[n].key);
      var members := Declared(h, props, schema).value;
      SelectsNew(h, props, schema[n], init);
      forall i | 0 <= i < n ensures Selected(h, props, schema[i], members) {
        assert schema[..n][i] == schema[i];
        SelectsOld(h, props, schema[i], schema[n], init);
      }
      StepKeys(h, props, schema, init);
    }
  }

  lemma NewKey(schema: seq<FactRule>)
    requires DistinctSchema(schema) && schema != []
    ensures DistinctSchema(schema[..|schema| - 1]) && !Declares(schema[..|schema| - 1], schema[|schema| - 1].key)
  {}

  lemma SelectsNew(h: Heap, props: seq<Property>, fact: FactRule, init: seq<Member>)
    requires DeclaredStep(h, props, fact, init).Some? && Lookup(init, fact.key).None?
    ensures Selected(h, props, fact, DeclaredStep(h, props, fact, init).value)
  {
    hide RuleValue, Find;
    var members := DeclaredStep(h, props, fact, init).value;
    if Find(props, Name(fact.key)).Some? {
      LookupAppend(init, members[|init|], fact.key);
    }
  }

  lemma SelectsOld(h: Heap, props: seq<Property>, other: FactRule, fact: FactRule, init: seq<Member>)
    requires DeclaredStep(h, props, fact, init).Some? && other.key != fact.key && Selected(h, props, other, init)
    ensures Selected(h, props, other, DeclaredStep(h, props, fact, init).value)
  {
    hide RuleValue, Find;
    var members := DeclaredStep(h, props, fact, init).value;
    if Find(props, Name(fact.key)).Some? {
      LookupAppend(init, members[|init|], other.key);
    }
  }

  lemma StepKeys(h: Heap, props: seq<Property>, schema: seq<FactRule>, init: seq<Member>)
    requires schema != [] && DeclaredStep(h, props, schema[|schema| - 1], init).Some?
    requires forall m :: m in init ==> Declares(schema[..|schema| - 1], m.key)
    ensures forall m :: m in DeclaredStep(h, props, schema[|schema| - 1], init).value ==> Declares(schema, m.key)
  {
    hide RuleValue, Find;
    var n := |schema| - 1;
    forall m | m in DeclaredStep(h, props, schema[n], init).value ensures Declares(schema, m.key) {
      if m in init {
        var k :| 0 <= k < n && schema[..n][k].key == m.key;
        assert schema[k].key == m.key;
      } else {
        assert schema[n].key == m.key;
      }
    }
  }

  // Two inputs that agree on every fact have the same declared details.
  lemma {:induction false} DeclaredAgree(h: Heap, props: seq<Property>, g: Heap, again: seq<Property>, schema: seq<FactRule>)
    requires forall i :: 0 <= i < |schema| ==>
               DeclaredStep(g, again, schema[i], []) == DeclaredStep(h, props, schema[i], [])
    ensures Declared(g, again, schema) == Declared(h, props, schema)
  {
    hide RuleValue, Find, DeclaredStep;
    if schema != [] {
      var n := |schema| - 1;
      DeclaredAgree(h, props, g, again, schema[..n]);
      if Declared(h, props, schema[..n]).Some? {
        StepAfter(h, props, schema[n], Declared(h, props, schema[..n]).value);
        StepAfter(g, again, schema[n], Declared(h, props, schema[..n]).value);
      }
    }
  }

  lemma StepAfter(h: Heap, props: seq<Property>, fact: FactRule, init: seq<Member>)
    ensures DeclaredStep(h, props, fact, init)
            == match DeclaredStep(h, props, fact, []) case None => None case Some(last) => Some(init + last)
  {
    hide RuleValue, Find;
    assert forall m: Member :: [] + [m] == [m];
    assert init + [] == init;
  }

  lemma SchemaAgain(h: Heap, props: seq<Property>, schema: seq<FactRule>, g: Heap, v: Value, members: seq<Member>, i: nat)
    requires Denotes(g, v, Obj(members)) && i < |schema|
    requires Selected(h, props, schema[i], members)
    ensures DeclaredStep(g, g[v.id].props, schema[i], []) == DeclaredStep(h, props, schema[i], [])
  {
    hide RuleValue, Find, Denotes, RuleForm, Lookup;
    var key := schema[i].key;
    if Find(props, Name(key)).None? {
      DenotedAbsent(g, v, members, key);
    } else {
      var slot := Find(props, Name(key)).value;
      RuleValueForm(h, schema[i].rule, slot.value);
      LookupIndex(members, key);
      var k :| 0 <= k < |members| && members[k] == Member(key, Lookup(members, key).value);
      DenotedField(g, v, members, k);
      RuleValueAgain(g, schema[i].rule, g[v.id].props[k].slot.value, members[k].value);
    }
  }

  lemma {:induction false} UndeclaredAgain(c: Table, schema: seq<FactRule>, h: Heap, props: seq<Property>)
    requires forall i :: 0 <= i < |props| ==> props[i].key.Name? && Declares(schema, props[i].key.text)
    ensures Undeclared(c, schema, h, props) == Some(0)
  {
    hide Declares;
    if props != [] {
      UndeclaredAgain(c, schema, h, props[..|props| - 1]);
    }
  }

  // The count of dropped fields is carried over as itself.
  lemma ClosingAgain(c: Table, schema: seq<FactRule>, g: Heap, v: Value, declared: seq<Member>, omitted: nat)
    requires !Declares(schema, OMITTED) && forall m :: m in declared ==> Declares(schema, m.key)
    requires Denotes(g, v, Obj(declared + Closing(omitted)))
    ensures Undeclared(c, schema, g, g[v.id].props).Some?
    ensures Closing(Undeclared(c, schema, g, g[v.id].props).value) == Closing(omitted)
  {
    hide Declares;
    var members, props, n := declared + Closing(omitted), g[v.id].props, |declared|;
    forall i | 0 <= i < n ensures props[i].key.Name? && Declares(schema, props[i].key.text) {
      assert members[i] == declared[i];
      assert declared[i] in declared;
    }
    UndeclaredAgain(c, schema, g, props[..n]);
    if omitted == 0 {
      assert props[..n] == props;
    } else {
      assert members[n] == Closing(omitted)[0];
      UndeclaredPrefix(c, schema, g, props, n);
      assert props[..n + 1] == props;
    }
  }

  /** Details taken from details of at most 16 fields are the same details. */
  lemma FactsAgain(c: Table, schema: seq<FactRule>, h: Heap, input: Value, g: Heap, v: Value)
    requires DistinctSchema(schema) && !Declares(schema, OMITTED)
    requires FactDetails(c, schema, h, input).Some? && Denotes(g, v, FactDetails(c, schema, h, input).value)
    requires |FactDetails(c, schema, h, input).value.members| <= 16
    ensures FactDetails(c, schema, g, v) == FactDetails(c, schema, h, input)
  {
    hide Declared, Undeclared, DeclaredStep, Find, RuleValue, Closing, DistinctSchema, Declares, Lookup;
    var props := h[input.id].props;
    var declared, omitted := Declared(h, props, schema).value, Undeclared(c, schema, h, props).value;
    var members := declared + Closing(omitted);
    DeclaredSelects(h, props, schema);
    forall i | 0 <= i < |schema|
      ensures DeclaredStep(g, g[v.id].props, schema[i], []) == DeclaredStep(h, props, schema[i], [])
    {
      LookupClosing(schema, declared, omitted, i);
      SchemaAgain(h, props, schema, g, v, members, i);
    }
    DeclaredAgree(h, props, g, g[v.id].props, schema);
    ClosingAgain(c, schema, g, v, declared, omitted);
  }

  lemma LookupClosing(schema: seq<FactRule>, declared: seq<Member>, omitted: nat, i: nat)
    requires !Declares(schema, OMITTED) && i < |schema|
    ensures Lookup(declared + Closing(omitted), schema[i].key) == Lookup(declared, schema[i].key)
  {
    assert schema[i].key != OMITTED;
    if omitted == 0 {
      assert declared + Closing(omitted) == declared;
    } else {
      LookupAppend(declared, Closing(omitted)[0], schema[i].key);
    }
  }
}

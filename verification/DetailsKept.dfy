/** Which fields details keep, and in which order: packages/contracts/src/failure.ts, lines 349-371, 498-514 and 595-686. */
module DetailsKept {
  import opened JsonText
  import opened Sequences
  import opened JsHeap
  import opened FailureModel
  import opened PlainPolicies
  import opened FactPolicies
  import opened NativeCollection
  import opened DetailsAccepted

  // ---------------------------------------------------------------------------------------------
  // Plain details

  function PlainRule(policy: Policy, h: Heap): (seq<Property>, Property) -> seq<Member>
    requires policy.kind.Plain?
  {
    (before, p: Property) => match PlainKept(policy, h, p) case None => [] case Some(m) => [m]
  }

  /** The facts kept are those of the supported fields, in the order of the fields. */
  lemma {:induction false} PlainCollects(c: Table, policy: Policy, h: Heap, props: seq<Property>)
    requires policy.kind.Plain? && PlainFold(c, policy, h, props).Some?
    ensures PlainFold(c, policy, h, props).value.kept == Collected(props, PlainRule(policy, h))
  {
    hide PlainStep, PlainKept;
    if props != [] {
      var n := |props| - 1;
      PlainCollects(c, policy, h, props[..n]);
      PlainStepKept(c, policy, h, props[n], PlainFold(c, policy, h, props[..n]).value);
    }
  }

  // ---------------------------------------------------------------------------------------------
  // Fact details

  // What a declared fact contributes.
  function FactKept(h: Heap, props: seq<Property>, fact: FactRule): seq<Member> {
    match Find(props, Name(fact.key))
    case Some(Data(v, _)) => (match RuleValue(h, fact.rule, v) case Some(j) => [Member(fact.key, j)] case None => [])
    case _ => []
  }

  function FactsRule(h: Heap, props: seq<Property>): (seq<FactRule>, FactRule) -> seq<Member> {
    (before, fact) => FactKept(h, props, fact)
  }

  /** The declared facts stand in the order of the schema. */
  lemma {:induction false} DeclaredCollects(h: Heap, props: seq<Property>, schema: seq<FactRule>)
    requires Declared(h, props, schema).Some?
    ensures Declared(h, props, schema).value == Collected(schema, FactsRule(h, props))
  {
    hide RuleValue, Find;
    if schema != [] {
      DeclaredCollects(h, props, schema[..|schema| - 1]);
    }
  }

  // ---------------------------------------------------------------------------------------------
  // Native details

  // An entry is kept whole when it is one of the first 32 and its strings are short.
  function ItemKept(h: Heap, rule: NativeRule, slot: Slot, index: nat): seq<Json>
    requires IsListRule(rule)
  {
    if index < 32 && slot.Data? then
      match SnapItem(h, rule, slot.value)
      case Some(Kept(item)) => [item]
      case _ => []
    else []
  }

  function ItemsRule(h: Heap, rule: NativeRule): (seq<Slot>, Slot) -> seq<Json>
    requires IsListRule(rule)
  {
    (before, slot) => ItemKept(h, rule, slot, |before|)
  }

  /** Of a list exactly the short entries among the first 32 are kept, in their order. */
  lemma {:induction false} ListCollects(h: Heap, rule: NativeRule, slots: seq<Slot>, start: Draft<Json>)
    requires IsListRule(rule) && ListFold(h, rule, slots, start).Some?
    ensures ListFold(h, rule, slots, start).value.kept == start.kept + Collected(slots, ItemsRule(h, rule))
  {
    hide SnapItem, Letters;
    if slots != [] {
      var n := |slots| - 1;
      ListCollects(h, rule, slots[..n], start);
    }
  }

  // What a field contributes: a count, a short diagnostic, or a list of entries.
  ghost function FieldKept(rules: map<Text, NativeRule>, h: Heap, p: Property): seq<Member> {
    if !p.key.Name? || !p.slot.Data? || p.key.text !in rules || IsCounter(p.key.text) then []
    else
      var key, v := p.key.text, p.slot.value;
      match rules[key]
      case Count => if IsCount(v) then [Member(key, Int(v.value))] else []
      case Diagnostic(_) => if v.StrV? && Bytes(v.text) <= 256 then [Member(key, Str(v.text))] else []
      case _ => if IsList(h, v) then [Member(key, Arr(Collected(h[v.id].slots, ItemsRule(h, rules[key]))))] else []
  }

  ghost function FieldsRule(rules: map<Text, NativeRule>, h: Heap): (seq<Property>, Property) -> seq<Member> {
    (before, p) => FieldKept(rules, h, p)
  }

  lemma StepKept(c: Table, rules: map<Text, NativeRule>, h: Heap, p: Property, d: Draft<Member>)
    requires NativeStep(c, rules, h, p, d).Some?
    ensures NativeStep(c, rules, h, p, d).value.kept == d.kept + FieldKept(rules, h, p)
  {
    hide Bytes, ListFold, Collected, Letters;
    assert d.kept + [] == d.kept;
    if p.key.text in rules && !IsCounter(p.key.text) && IsListRule(rules[p.key.text]) {
      var slots := h[p.slot.value.id].slots;
      ListCollects(h, rules[p.key.text], slots, Draft([], d.omitted, d.characters));
      assert [] + Collected(slots, ItemsRule(h, rules[p.key.text])) == Collected(slots, ItemsRule(h, rules[p.key.text]));
    }
  }

  /** The fields kept are exactly the counts, the short diagnostics and the lists, in the order given. */
  lemma {:induction false} NativeCollects(c: Table, rules: map<Text, NativeRule>, h: Heap, props: seq<Property>)
    requires NativeFold(c, rules, h, props).Some?
    ensures NativeFold(c, rules, h, props).value.kept == Collected(props, FieldsRule(rules, h))
  {
    hide NativeStep, FieldKept;
    if props != [] {
      var n := |props| - 1;
      NativeCollects(c, rules, h, props[..n]);
      StepKept(c, rules, h, props[n], NativeFold(c, rules, h, props[..n]).value);
    }
  }
}

/** Exactly which fact details become a failure: packages/contracts/src/failure.ts, lines 753-757. */
module FactBudget {
  import opened Options
  import opened JsonText
  import opened JsonFacts
  import opened JsHeap
  import opened FailureModel
  import opened PlainPolicies
  import opened FactPolicies
  import opened DetailsBudget
  import opened DetailsStorage
  import opened FailureContract
  import opened RealContract

  // ---------------------------------------------------------------------------------------------
  // The budget of strings and the budget of shape

  /** Every string in the value is within the limit. */
  predicate TextsWithin(j: Json, limit: nat)
    decreases j
  {
    match j
    case Str(text) => Bytes(text) <= limit
    case Arr(items) => forall i :: 0 <= i < |items| ==> TextsWithin(items[i], limit)
    case Obj(members) => forall i :: 0 <= i < |members| ==> TextsWithin(members[i].value, limit)
    case _ => true
  }

  predicate ShapeWithin(j: Json, depth: nat)
    decreases j
  {
    depth <= DEEPEST &&
    match j
    case Arr(items) => |items| <= MOST_LISTED && forall i :: 0 <= i < |items| ==> ShapeWithin(items[i], depth + 1)
    case Obj(members) =>
      |members| <= MOST_FIELDS && forall i :: 0 <= i < |members| ==> ShapeWithin(members[i].value, depth + 1)
    case _ => true
  }

  lemma {:induction false} BudgetSplit(j: Json, depth: nat, limit: nat)
    ensures InBudget(j, depth, limit) <==> ShapeWithin(j, depth) && TextsWithin(j, limit)
    decreases j
  {
    match j {
      case Arr(items) =>
        forall i | 0 <= i < |items| ensures InBudget(items[i], depth + 1, limit)
                                            <==> ShapeWithin(items[i], depth + 1) && TextsWithin(items[i], limit) {
          BudgetSplit(items[i], depth + 1, limit);
        }
      case Obj(members) =>
        forall i | 0 <= i < |members| ensures InBudget(members[i].value, depth + 1, limit)
                                              <==> ShapeWithin(members[i].value, depth + 1) && TextsWithin(members[i].value, limit) {
          BudgetSplit(members[i].value, depth + 1, limit);
        }
      case _ =>
    }
  }

  // The attributes a call ends up with are ones the policy allows.
  predicate Allowed(t: Table, policy: Policy, a: Attributes) {
    (policy.code in t.catalog || policy.code in TRANSPORT_CODES) && AttributeTypes(a) &&
    var (action, severity, retryable) := Chosen(t, policy, a);
    AttributesAllowed(t, policy, action, severity, retryable)
  }

  // The call for this reason and its code returns a failure.
  ghost predicate Accepted(c: Contract, reason: Text, h: Heap, details: Value, a: Attributes)
    requires WellFormed(c.table) && reason in c.table.policies
  {
    KnownFailure(c, StrV(PolicyOf(c, reason).code), StrV(reason), h, details, a).Some?
  }

  /** Fact details with allowed attributes become a failure exactly when they meet the string, shape and byte budgets. */
  lemma FactFailureIff(c: Contract, reason: Text, h: Heap, details: Value, a: Attributes, d: Json)
    requires WellFormed(c.table) && ByTable(c) && reason in c.table.policies && PolicyOf(c, reason).kind.Facts?
    requires FactDetails(c.table, PolicyOf(c, reason).kind.schema, h, details) == Some(d)
    requires Allowed(c.table, PolicyOf(c, reason), a)
    ensures Accepted(c, reason, h, details, a) <==>
            TextsWithin(d, StringLimit(PolicyOf(c, reason))) && ShapeWithin(d, 0) && Size(d) <= DETAILS_LIMIT
  {
    hide WellFormedPolicy, FactDetails, AttributesAllowed, Chosen, BudgetIssues, InBudget, Size, Bytes, TextsWithin, ShapeWithin;
    var policy := PolicyOf(c, reason);
    TakenFacts(c, reason, h, details);
    ShortMessage(c.table, reason);
    BudgetIff(d, 0, StringLimit(policy));
    BudgetSplit(d, 0, StringLimit(policy));
  }

  lemma TakenFacts(c: Contract, reason: Text, h: Heap, details: Value)
    requires WellFormed(c.table) && ByTable(c) && reason in c.table.policies && PolicyOf(c, reason).kind.Facts?
    ensures c.take(reason, h, details) == FactDetails(c.table, PolicyOf(c, reason).kind.schema, h, details)
    ensures FactDetails(c.table, PolicyOf(c, reason).kind.schema, h, details).Some? ==> details.Ref?
  {
    hide WellFormedPolicy, Declared, Undeclared;
  }

  lemma ShortMessage(t: Table, reason: Text)
    requires WellFormed(t) && reason in t.policies
    ensures Bytes(t.policies[reason].message) <= LONG
  {
    BytesWithinUnits(t.policies[reason].message);
  }

  // ---------------------------------------------------------------------------------------------
  // Fact details are never too wide or too deep

  // No rule of the schema takes a list of more than 32, as none in the source's table does.
  predicate ShortLists(schema: seq<FactRule>) {
    forall i :: 0 <= i < |schema| ==>
      (schema[i].rule.Words? ==> schema[i].rule.count <= MOST_LISTED) &&
      (schema[i].rule.Pairs? ==> schema[i].rule.most <= MOST_LISTED)
  }

  lemma RuleShape(rule: Rule, j: Json)
    requires RuleForm(rule, j)
    requires (rule.Words? ==> rule.count <= MOST_LISTED) && (rule.Pairs? ==> rule.most <= MOST_LISTED)
    ensures ShapeWithin(j, 1)
  {
    if rule.Pairs? {
      forall i | 0 <= i < |j.items| ensures ShapeWithin(j.items[i], 2) {
        assert PairForm(j.items[i], rule.first, rule.second, rule.pairs);
      }
    }
  }

  function KeySet(members: seq<Member>): set<Text> {
    if members == [] then {} else KeySet(members[..|members| - 1]) + {members[|members| - 1].key}
  }

  lemma {:induction false} KeySetHas(members: seq<Member>, key: Text)
    ensures key in KeySet(members) <==> exists m :: m in members && m.key == key
  {
    if members != [] {
      var n := |members| - 1;
      KeySetHas(members[..n], key);
      assert members == members[..n] + [members[n]];
    }
  }

  lemma {:induction false} KeySetSize(members: seq<Member>)
    requires DistinctMembers(members)
    ensures |KeySet(members)| == |members|
  {
    if members != [] {
      var n := |members| - 1;
      KeySetSize(members[..n]);
      KeySetHas(members[..n], members[n].key);
    }
  }

  function NameSet(props: seq<Property>): set<Text> {
    if props == [] then {}
    else
      var last := props[|props| - 1].key;
      NameSet(props[..|props| - 1]) + if last.Name? then {last.text} else {}
  }

  lemma {:induction false} NameSetHas(props: seq<Property>, i: nat)
    requires i < |props| && props[i].key.Name?
    ensures props[i].key.text in NameSet(props)
  {
    if i < |props| - 1 { NameSetHas(props[..|props| - 1], i); }
  }

  lemma {:induction false} NameSetSize(props: seq<Property>)
    ensures |NameSet(props)| <= |props|
  {
    if props != [] { NameSetSize(props[..|props| - 1]); }
  }

  lemma {:induction false} DeclaredNamed(h: Heap, props: seq<Property>, schema: seq<FactRule>)
    requires Declared(h, props, schema).Some?
    ensures forall m :: m in Declared(h, props, schema).value ==> m.key in NameSet(props)
  {
    hide RuleValue, NameSet, Find;
    if schema != [] {
      var n := |schema| - 1;
      DeclaredNamed(h, props, schema[..n]);
      if Find(props, Name(schema[n].key)).Some? {
        var i :| 0 <= i < |props| && props[i].key == Name(schema[n].key);
        NameSetHas(props, i);
      }
    }
  }

  lemma {:induction false} DroppedNamed(c: Table, schema: seq<FactRule>, h: Heap, props: seq<Property>)
    requires Undeclared(c, schema, h, props).Some? && Undeclared(c, schema, h, props).value > 0
    ensures exists i :: 0 <= i < |props| && props[i].key.Name? && !Declares(schema, props[i].key.text)
  {
    hide Declares;
    var n := |props| - 1;
    if Undeclared(c, schema, h, props[..n]).value > 0 {
      DroppedNamed(c, schema, h, props[..n]);
      var i :| 0 <= i < n && props[..n][i].key.Name? && !Declares(schema, props[..n][i].key.text);
      assert props[i].key.Name? && !Declares(schema, props[i].key.text);
    }
  }

  // The declared facts and the count of the others take no more fields than the caller gave.
  lemma FieldCount(c: Table, schema: seq<FactRule>, h: Heap, props: seq<Property>)
    requires DistinctSchema(schema) && Declared(h, props, schema).Some? && Undeclared(c, schema, h, props).Some?
    ensures |Declared(h, props, schema).value + Closing(Undeclared(c, schema, h, props).value)| <= |props|
  {
    hide Declared, Undeclared, Declares, RuleForm, DistinctSchema, DistinctMembers, KeySet, NameSet;
    var declared := Declared(h, props, schema).value;
    DeclaredKeys(h, props, schema);
    DeclaredNamed(h, props, schema);
    KeySetSize(declared);
    NameSetSize(props);
    forall k | k in KeySet(declared) ensures k in NameSet(props) { KeySetHas(declared, k); }
    if Undeclared(c, schema, h, props).value > 0 {
      DroppedNamed(c, schema, h, props);
      var i :| 0 <= i < |props| && props[i].key.Name? && !Declares(schema, props[i].key.text);
      KeysDeclared(schema, declared);
      NameSetHas(props, i);
      SubsetSize(KeySet(declared) + {props[i].key.text}, NameSet(props));
    } else {
      SubsetSize(KeySet(declared), NameSet(props));
    }
  }

  lemma KeysDeclared(schema: seq<FactRule>, declared: seq<Member>)
    requires forall m :: m in declared ==> exists i :: 0 <= i < |schema| && schema[i].key == m.key && RuleForm(schema[i].rule, m.value)
    ensures forall k :: k in KeySet(declared) ==> Declares(schema, k)
  {
    hide RuleForm, KeySet;
    forall k | k in KeySet(declared) ensures Declares(schema, k) { KeySetHas(declared, k); }
  }

  lemma {:induction false} SubsetSize<T>(a: set<T>, b: set<T>)
    requires a <= b
    ensures |a| <= |b|
  {
    if a != {} {
      var x :| x in a;
      SubsetSize(a - {x}, b - {x});
    }
  }

  /** Of the details a fact policy takes only strings and bytes can be over budget. */
  lemma FactShape(c: Table, schema: seq<FactRule>, h: Heap, details: Value)
    requires DistinctSchema(schema) && ShortLists(schema) && FactDetails(c, schema, h, details).Some?
    ensures ShapeWithin(FactDetails(c, schema, h, details).value, 0)
  {
    hide Declared, Undeclared, RuleForm, DistinctSchema, DistinctMembers;
    var props := h[details.id].props;
    var declared := Declared(h, props, schema).value;
    DeclaredKeys(h, props, schema);
    FieldCount(c, schema, h, props);
    forall m | m in declared ensures ShapeWithin(m.value, 1) {
      var i :| 0 <= i < |schema| && schema[i].key == m.key && RuleForm(schema[i].rule, m.value);
      RuleShape(schema[i].rule, m.value);
    }
  }

  // ---------------------------------------------------------------------------------------------
  // Strings in details, rule by rule

  // The fact is given as its rule wants it.
  predicate FactMet(h: Heap, props: seq<Property>, fact: FactRule) {
    match Find(props, Name(fact.key))
    case None => fact.optional
    case Some(slot) => slot.Data? && RuleValue(h, fact.rule, slot.value).Some?
  }

  // Its strings, if it is given, are within the limit.
  predicate FactWithin(h: Heap, props: seq<Property>, fact: FactRule, limit: nat)
    requires FactMet(h, props, fact)
  {
    match Find(props, Name(fact.key))
    case None => true
    case Some(slot) => TextsWithin(RuleValue(h, fact.rule, slot.value).value, limit)
  }

  /** The strings of fact details are those of the declared facts. */
  lemma FactTexts(c: Table, schema: seq<FactRule>, h: Heap, details: Value, limit: nat)
    requires DistinctSchema(schema) && FactDetails(c, schema, h, details).Some?
    ensures IsRecord(h, details) && forall i :: 0 <= i < |schema| ==> FactMet(h, h[details.id].props, schema[i])
    ensures TextsWithin(FactDetails(c, schema, h, details).value, limit) <==>
            forall i :: 0 <= i < |schema| ==> FactWithin(h, h[details.id].props, schema[i], limit)
  {
    hide Declared, Undeclared, RuleForm, RuleValue, DistinctMembers, Find, DistinctSchema, TextsWithin, Declares, Lookup;
    var props := h[details.id].props;
    var declared, closing := Declared(h, props, schema).value, Closing(Undeclared(c, schema, h, props).value);
    DeclaredSelects(h, props, schema);
    DeclaredKeys(h, props, schema);
    MembersTexts(declared, closing, limit);
    forall i | 0 <= i < |schema| ensures FactMet(h, props, schema[i]) {
      assert Selected(h, props, schema[i], declared);
    }
    if forall m :: m in declared ==> TextsWithin(m.value, limit) {
      forall i | 0 <= i < |schema| ensures FactWithin(h, props, schema[i], limit) {
        assert Selected(h, props, schema[i], declared);
        if Find(props, Name(schema[i].key)).Some? { LookupIndex(declared, schema[i].key); }
      }
    } else {
      var m :| m in declared && !TextsWithin(m.value, limit);
      var k :| 0 <= k < |declared| && declared[k] == m;
      LookupAt(declared, k);
      var i :| 0 <= i < |schema| && schema[i].key == m.key && RuleForm(schema[i].rule, m.value);
      assert Selected(h, props, schema[i], declared);
      assert !FactWithin(h, props, schema[i], limit);
    }
  }

  lemma MembersTexts(declared: seq<Member>, closing: seq<Member>, limit: nat)
    requires closing == [] || (|closing| == 1 && closing[0].value.Int?)
    ensures TextsWithin(Obj(declared + closing), limit) <==> forall m :: m in declared ==> TextsWithin(m.value, limit)
  {
    var all := declared + closing;
    forall i | 0 <= i < |all| ensures if i < |declared| then all[i] == declared[i] else TextsWithin(all[i].value, limit) {}
    if TextsWithin(Obj(all), limit) {
      forall m | m in declared ensures TextsWithin(m.value, limit) {
        var i :| 0 <= i < |declared| && declared[i] == m;
        assert all[i] == m;
      }
    }
  }

  // A list of words is within a limit exactly when every word is.
  lemma WordsTexts(h: Heap, count: nat, limit: nat, accepts: Text -> bool, v: Value, most: nat)
    requires RuleValue(h, Words(count, limit, accepts), v).Some?
    ensures TextsWithin(RuleValue(h, Words(count, limit, accepts), v).value, most) <==>
            var slots := h[v.id].slots;
            forall i :: 0 <= i < |slots| && slots[i].Data? && slots[i].value.StrV? ==> Bytes(slots[i].value.text) <= most
    ensures limit <= most ==> TextsWithin(RuleValue(h, Words(count, limit, accepts), v).value, most)
  {
    hide Bytes;
    TextItemsAre(h[v.id].slots, t => ShortText(t, limit, accepts));
    TextItemsForm(h[v.id].slots, t => ShortText(t, limit, accepts));
  }

  lemma {:induction false} TextItemsAre(slots: seq<Slot>, accepts: Text -> bool)
    requires TextItems(slots, accepts).Some?
    ensures forall i :: 0 <= i < |slots| ==>
              slots[i].Data? && slots[i].value.StrV? && TextItems(slots, accepts).value[i] == Str(slots[i].value.text)
  {
    if slots != [] {
      TextItemsAre(slots[..|slots| - 1], accepts);
    }
  }

  // What a rule bounds by itself.
  predicate Bounds(rule: Rule, limit: nat) {
    match rule
    case Uint => true
    case Boolean => true
    case Word(_) => SHORT <= limit
    case LongWord(_, _) => LONG <= limit
    case Words(_, most, _) => most <= limit
    case Pairs(_, _, _, _, _) => false
  }

  lemma BoundedFact(h: Heap, props: seq<Property>, fact: FactRule, limit: nat)
    requires FactMet(h, props, fact) && Bounds(fact.rule, limit)
    ensures FactWithin(h, props, fact, limit)
  {
    hide Bytes;
    match Find(props, Name(fact.key))
    case None =>
    case Some(slot) =>
      match fact.rule {
        case Words(count, most, accepts) => WordsTexts(h, count, most, accepts, slot.value, limit);
        case _ =>
      }
  }

  /** A schema whose every rule keeps within the limit never gives details with longer strings. */
  lemma BoundedFacts(c: Table, schema: seq<FactRule>, h: Heap, details: Value, limit: nat)
    requires DistinctSchema(schema) && FactDetails(c, schema, h, details).Some?
    requires forall i :: 0 <= i < |schema| ==> Bounds(schema[i].rule, limit)
    ensures TextsWithin(FactDetails(c, schema, h, details).value, limit)
  {
    hide FactDetails, FactMet, FactWithin, Bounds, DistinctSchema, TextsWithin;
    FactTexts(c, schema, h, details, limit);
    forall i | 0 <= i < |schema| ensures FactWithin(h, h[details.id].props, schema[i], limit) {
      BoundedFact(h, h[details.id].props, schema[i], limit);
    }
  }
}

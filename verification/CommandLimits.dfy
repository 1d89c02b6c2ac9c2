/** How long a suggested command may be: packages/contracts/src/failure.ts, lines 451-475 and 754-756. */
module CommandLimits {
  import opened Options
  import opened JsonText
  import opened JsonFacts
  import opened JsHeap
  import opened JsAllocation
  import opened FailureModel
  import opened FailureEnvelopes
  import opened FactPolicies
  import opened FactBudget
  import opened FailureContract
  import opened RealContract
  import opened FailureTable

  // ---------------------------------------------------------------------------------------------
  // The diagnostic commands are optional: their rule takes 1024 bytes, but the string budget is 256

  /** Every text the caller lists under the key is at most 256 bytes. */
  predicate ShortWords(h: Heap, details: Value, key: Text)
    requires IsRecord(h, details)
  {
    match Find(h[details.id].props, Name(key))
    case None => true
    case Some(slot) =>
      slot.Data? && IsList(h, slot.value) ==>
        var words := h[slot.value.id].slots;
        forall i :: 0 <= i < |words| && words[i].Data? && words[i].value.StrV? ==> Bytes(words[i].value.text) <= SHORT
  }

  // A schema that takes long words under one optional key, and nothing else over 256 bytes.
  predicate OneLongList(schema: seq<FactRule>, k: nat) {
    k < |schema| && schema[k].optional && schema[k].rule.Words? && schema[k].rule.limit > SHORT &&
    forall i :: 0 <= i < |schema| && i != k ==> Bounds(schema[i].rule, SHORT)
  }

  lemma OptionalShort(policy: Policy, k: nat)
    requires policy.kind.Facts? && OneLongList(policy.kind.schema, k)
    ensures StringLimit(policy) == SHORT
  {
    forall i | 0 <= i < |policy.kind.schema| && i != k
      ensures !policy.kind.schema[i].rule.LongWord? && (policy.kind.schema[i].rule.Words? ==> policy.kind.schema[i].rule.limit <= SHORT)
    {
      assert Bounds(policy.kind.schema[i].rule, SHORT);
    }
  }

  lemma OnlyLongList(t: Table, schema: seq<FactRule>, k: nat, h: Heap, details: Value)
    requires DistinctSchema(schema) && OneLongList(schema, k) && FactDetails(t, schema, h, details).Some?
    ensures IsRecord(h, details)
    ensures TextsWithin(FactDetails(t, schema, h, details).value, SHORT) <==> ShortWords(h, details, schema[k].key)
  {
    hide FactDetails, TextsWithin, RuleValue, Bytes, Find, DistinctSchema, Bounds;
    FactTexts(t, schema, h, details, SHORT);
    var props := h[details.id].props;
    forall i | 0 <= i < |schema| && i != k ensures FactWithin(h, props, schema[i], SHORT) {
      BoundedFact(h, props, schema[i], SHORT);
    }
    assert FactMet(h, props, schema[k]);
    if Find(props, Name(schema[k].key)).Some? {
      LongWords(h, schema[k].rule, Find(props, Name(schema[k].key)).value.value);
    }
  }

  lemma LongWords(h: Heap, rule: Rule, v: Value)
    requires rule.Words? && RuleValue(h, rule, v).Some?
    ensures IsList(h, v)
    ensures TextsWithin(RuleValue(h, rule, v).value, SHORT) <==>
            var words := h[v.id].slots;
            forall i :: 0 <= i < |words| && words[i].Data? && words[i].value.StrV? ==> Bytes(words[i].value.text) <= SHORT
  {
    hide TextsWithin, Bytes;
    WordsTexts(h, rule.count, rule.limit, rule.accepts, v, SHORT);
  }

  /** An optional list of long words is dead above 256 bytes: with its facts met, a call returns exactly when they are short. */
  lemma OptionalListIff(c: Contract, reason: Text, k: nat, h: Heap, details: Value, a: Attributes, d: Json)
    requires WellFormed(c.table) && ByTable(c) && reason in c.table.policies && PolicyOf(c, reason).kind.Facts?
    requires DistinctSchema(PolicyOf(c, reason).kind.schema) && ShortLists(PolicyOf(c, reason).kind.schema)
    requires OneLongList(PolicyOf(c, reason).kind.schema, k) && Allowed(c.table, PolicyOf(c, reason), a)
    requires FactDetails(c.table, PolicyOf(c, reason).kind.schema, h, details) == Some(d)
    ensures IsRecord(h, details)
    ensures Accepted(c, reason, h, details, a) <==>
            ShortWords(h, details, PolicyOf(c, reason).kind.schema[k].key) && Size(d) <= DETAILS_LIMIT
  {
    hide WellFormed, ByTable, DistinctSchema, ShortLists, OneLongList, Allowed, FactDetails, Accepted, ShortWords, Size,
      TextsWithin, ShapeWithin, StringLimit;
    var policy := PolicyOf(c, reason);
    OptionalShort(policy, k);
    FactFailureIff(c, reason, h, details, a, d);
    FactShape(c.table, policy.kind.schema, h, details);
    OnlyLongList(c.table, policy.kind.schema, k, h, details);
  }

  /** With its facts met, an ignored model is reported exactly when its commands are short and the details are small. */
  lemma IgnoredIff(c: Contract, reason: Text, h: Heap, details: Value, a: Attributes, d: Json)
    requires WellFormed(c.table) && ByTable(c) && reason in c.table.policies && PolicyOf(c, reason) == MODEL_IGNORED
    requires FactDetails(c.table, MODEL_IGNORED.kind.schema, h, details) == Some(d) && Allowed(c.table, MODEL_IGNORED, a)
    ensures IsRecord(h, details)
    ensures Accepted(c, reason, h, details, a) <==> ShortWords(h, details, COMMANDS) && Size(d) <= DETAILS_LIMIT
  {
    hide *;
    IgnoredSchema();
    OptionalListIff(c, reason, 2, h, details, a, d);
  }

  lemma IgnoredSchema()
    ensures MODEL_IGNORED.kind.Facts? && DistinctSchema(MODEL_IGNORED.kind.schema) && ShortLists(MODEL_IGNORED.kind.schema)
    ensures OneLongList(MODEL_IGNORED.kind.schema, 2) && MODEL_IGNORED.kind.schema[2].key == COMMANDS
  {
    FactsDistinct();
  }

  // The least details of an ignored model that list one command.
  function IgnoredDetails(command: Text): Json {
    Obj([Member(PATH_COUNT, Int(0)), Member(COMMANDS, Arr([Str(command)])), Member(OMITTED_PATHS, Int(0))])
  }

  /** With one listed command that its rule takes, the failure is refused exactly when the command is over 256 bytes. */
  lemma OneCommandIff(c: Contract, reason: Text, h: Heap, details: Value, a: Attributes, command: Text)
    requires WellFormed(c.table) && ByTable(c) && reason in c.table.policies && PolicyOf(c, reason) == MODEL_IGNORED
    requires Allowed(c.table, MODEL_IGNORED, a)
    requires Denotes(h, details, IgnoredDetails(command)) && Bytes(command) <= LONG
    ensures FactDetails(c.table, MODEL_IGNORED.kind.schema, h, details) == Some(IgnoredDetails(command))
    ensures Accepted(c, reason, h, details, a) <==> Bytes(command) <= SHORT
  {
    hide *;
    OneCommandTaken(c.table, h, details, command);
    if Bytes(command) <= SHORT { OneCommandSmall(command); }
    OneCommandShort(h, details, command);
    IgnoredIff(c, reason, h, details, a, IgnoredDetails(command));
  }

  lemma OneCommandShort(h: Heap, details: Value, command: Text)
    requires Denotes(h, details, IgnoredDetails(command))
    ensures IsRecord(h, details) && (ShortWords(h, details, COMMANDS) <==> Bytes(command) <= SHORT)
  {
    hide Bytes, Find;
    var members := IgnoredDetails(command).members;
    DenotedField(h, details, members, 1);
    var list := h[details.id].props[1].slot.value;
    assert members[1].value.items[0] == Str(command);
    assert Denotes(h, h[list.id].slots[0].value, Str(command));
  }

  lemma OneCommandTaken(t: Table, h: Heap, details: Value, command: Text)
    requires Denotes(h, details, IgnoredDetails(command)) && Bytes(command) <= LONG
    ensures FactDetails(t, MODEL_IGNORED.kind.schema, h, details) == Some(IgnoredDetails(command))
  {
    hide Bytes, Denotes, FactDetails;
    IgnoredKeys();
    var schema := MODEL_IGNORED.kind.schema;
    assert RuleForm(schema[2].rule, Arr([Str(command)]));
    ThreeOfFour(t, schema, h, details, Int(0), Arr([Str(command)]), Int(0));
  }

  // Facts that meet their rules are taken as they are; the second of the four is optional and absent.
  lemma ThreeOfFour(t: Table, schema: seq<FactRule>, h: Heap, details: Value, x: Json, y: Json, z: Json)
    requires |schema| == 4 && schema[1].optional
    requires schema[1].key != schema[0].key && schema[1].key != schema[2].key && schema[1].key != schema[3].key
    requires RuleForm(schema[0].rule, x) && RuleForm(schema[2].rule, y) && RuleForm(schema[3].rule, z)
    requires Denotes(h, details, Obj([Member(schema[0].key, x), Member(schema[2].key, y), Member(schema[3].key, z)]))
    ensures FactDetails(t, schema, h, details)
            == Some(Obj([Member(schema[0].key, x), Member(schema[2].key, y), Member(schema[3].key, z)]))
  {
    hide Find, RuleValue, RuleForm, Denotes, Lookup, Declared, Undeclared;
    var members := [Member(schema[0].key, x), Member(schema[2].key, y), Member(schema[3].key, z)];
    LookupAbsent(members, schema[1].key);
    DenotedAbsent(h, details, members, schema[1].key);
    DenotedField(h, details, members, 0);
    DenotedField(h, details, members, 1);
    DenotedField(h, details, members, 2);
    assert IsDataRecord(h, details) by { PlainFields(h, details, members); }
    var props := h[details.id].props;
    RuleValueAgain(h, schema[0].rule, props[0].slot.value, x);
    RuleValueAgain(h, schema[2].rule, props[1].slot.value, y);
    RuleValueAgain(h, schema[3].rule, props[2].slot.value, z);
    DeclaredNone(h, props);
    DeclaredPrefix(h, props, schema, 0);
    DeclaredPrefix(h, props, schema, 1);
    DeclaredPrefix(h, props, schema, 2);
    DeclaredPrefix(h, props, schema, 3);
    assert schema[..0] == [] && schema[..4] == schema;
    assert members[..1] == [] + [members[0]] && members[..2] == members[..1] + [members[1]] && members == members[..2] + [members[2]];
    assert Declared(h, props, schema[..1]) == Some(members[..1]);
    assert Declared(h, props, schema[..2]) == Some(members[..1]);
    assert Declared(h, props, schema[..3]) == Some(members[..2]);
    assert Declared(h, props, schema) == Some(members);
    PlainFields(h, details, members);
    forall i | 0 <= i < |props| ensures Declares(schema, props[i].key.text) {
      assert members[i].key == if i == 0 then schema[0].key else schema[i + 1].key;
    }
    UndeclaredAgain(t, schema, h, props);
    assert members + [] == members;
  }

  lemma DeclaredNone(h: Heap, props: seq<Property>)
    ensures Declared(h, props, []) == Some([])
  {}

  lemma PlainFields(h: Heap, v: Value, members: seq<Member>)
    requires Denotes(h, v, Obj(members)) && |members| <= 16
    ensures IsDataRecord(h, v) && |h[v.id].props| == |members|
    ensures forall i :: 0 <= i < |members| ==> h[v.id].props[i].key == Name(members[i].key)
  {}

  lemma IgnoredKeys()
    ensures var schema := MODEL_IGNORED.kind.schema;
            |schema| == 4 && schema[0].key == PATH_COUNT && schema[2].key == COMMANDS && schema[3].key == OMITTED_PATHS &&
            schema[1].key != PATH_COUNT && schema[1].key != COMMANDS && schema[1].key != OMITTED_PATHS
  {
    assert |MODEL_IGNORED.kind.schema[1].key| == 5 && |PATH_COUNT| == 9 && |COMMANDS| == 8 && |OMITTED_PATHS| == 16;
  }

  lemma OneCommandSmall(command: Text)
    requires Bytes(command) <= SHORT
    ensures Size(IgnoredDetails(command)) <= DETAILS_LIMIT
  {
    hide Size, EntrySize, Bytes;
    EntriesSmall(command);
    MembersSizeBound(IgnoredDetails(command).members, 1700);
    SizeIsSum(IgnoredDetails(command));
  }

  lemma EntriesSmall(command: Text)
    requires Bytes(command) <= SHORT
    ensures forall i :: 0 <= i < 3 ==> EntrySize(IgnoredDetails(command).members[i]) <= 1700
  {
    hide EntrySize, Bytes, Quote, Stringify;
    var members := IgnoredDetails(command).members;
    assert |PATH_COUNT| == 9 && |COMMANDS| == 8 && |OMITTED_PATHS| == 16;
    CommandsSize(command);
    QuoteBound(COMMANDS);
    EntryBound(members[0]);
    EntrySizeOf(members[1]);
    EntryBound(members[2]);
  }

  lemma EntrySizeOf(m: Member)
    ensures EntrySize(m) == Bytes(Quote(m.key)) + 1 + Size(m.value)
  {}

  lemma CommandsSize(command: Text)
    requires Bytes(command) <= SHORT
    ensures Size(Arr([Str(command)])) <= 6 * SHORT + 4
  {
    UnitsWithinBytes(command);
    QuoteBound(command);
    SizeIsSum(Arr([Str(command)]));
    hide Bytes, Quote;
    assert Stringify(Str(command)) == Quote(command);
    ItemsSizeAppend([], Str(command));
    assert [Str(command)] == [] + [Str(command)];
  }

  function Letters(n: nat): (t: Text)
    ensures |t| == n && AsciiText(t)
  {
    seq(n, _ => 0x61)
  }

  /** A command of 257 to 1024 bytes meets its rule, and the failure that lists it is refused all the same. */
  lemma LongCommandRefused(c: Contract, reason: Text, a: Attributes, n: nat)
    requires WellFormed(c.table) && ByTable(c) && reason in c.table.policies && PolicyOf(c, reason) == MODEL_IGNORED
    requires Allowed(c.table, MODEL_IGNORED, a) && SHORT < n <= LONG
    ensures Storable(IgnoredDetails(Letters(n))) && Bytes(Letters(n)) == n
    ensures var details := Fresh(IgnoredDetails(Letters(n)));
            FactDetails(c.table, MODEL_IGNORED.kind.schema, details.heap, details.value).Some? &&
            !Accepted(c, reason, details.heap, details.value, a)
  {
    hide *;
    AsciiBytes(Letters(n));
    IgnoredStorable(Letters(n));
    FreshDenotes(IgnoredDetails(Letters(n)));
    var details := Fresh(IgnoredDetails(Letters(n)));
    OneCommandIff(c, reason, details.heap, details.value, a, Letters(n));
  }

  lemma IgnoredStorable(command: Text)
    ensures Storable(IgnoredDetails(command))
  {
    assert |PATH_COUNT| == 9 && |COMMANDS| == 8 && |OMITTED_PATHS| == 16;
  }

  const IGNORED: Text := U("architecture-model-ignored")

  /** There is such a contract and such a call: the sample table's, with no attributes given. */
  lemma IgnoredAllowed(readbackValid: Json -> bool)
    ensures var t := Sample(readbackValid);
            IGNORED in t.policies && t.policies[IGNORED] == MODEL_IGNORED && Allowed(t, MODEL_IGNORED, NO_ATTRIBUTES)
  {}

  // ---------------------------------------------------------------------------------------------
  // The commands of a decision are not optional: there the budget is 1024 bytes too

  /** With every fact met, an unrecorded decision is reported exactly when its details are small: no command is too long. */
  lemma DecisionIff(c: Contract, reason: Text, h: Heap, details: Value, a: Attributes, d: Json)
    requires WellFormed(c.table) && ByTable(c) && reason in c.table.policies && PolicyOf(c, reason) == DECISION_UNRECORDED
    requires FactDetails(c.table, DECISION_UNRECORDED.kind.schema, h, details) == Some(d)
    requires Allowed(c.table, DECISION_UNRECORDED, a)
    ensures Accepted(c, reason, h, details, a) <==> Size(d) <= DETAILS_LIMIT
  {
    hide *;
    DecisionSchema();
    FactFailureIff(c, reason, h, details, a, d);
    FactShape(c.table, DECISION_UNRECORDED.kind.schema, h, details);
    BoundedFacts(c.table, DECISION_UNRECORDED.kind.schema, h, details, LONG);
  }

  lemma DecisionSchema()
    ensures var p := DECISION_UNRECORDED;
            p.kind.Facts? && DistinctSchema(p.kind.schema) && ShortLists(p.kind.schema) && StringLimit(p) == LONG &&
            forall i :: 0 <= i < |p.kind.schema| ==> Bounds(p.kind.schema[i].rule, LONG)
  {
    FactsDistinct();
    assert DECISION_UNRECORDED.kind.schema[2].rule.LongWord?;
  }
}

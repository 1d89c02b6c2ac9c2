/** The table of failure policies and the readers of caller data: packages/contracts/src/failure.ts. */
module FailureModel {
  import opened Options
  import opened JsonText
  import opened JsonFacts
  import opened JsHeap

  // ---------------------------------------------------------------------------------------------
  // The policy table. Every regular expression and enumeration of the source is a predicate on texts.

  datatype Rule =
    | Uint
    | Boolean
    | Word(accepts: Text -> bool)
    | LongWord(accepts: Text -> bool, orNull: bool)
    | Words(count: nat, limit: nat, accepts: Text -> bool)
    | Pairs(least: nat, most: nat, first: Text, second: Text, pairs: (Text, Text) -> bool)

  datatype FactRule = FactRule(key: Text, optional: bool, rule: Rule)

  datatype NativeRule =
    | Count
    | Diagnostic(accepts: Text -> bool)
    | Lines
    | Issues
    | Markers(kinds: seq<Text>)

  datatype Kind =
    | Plain(fields: seq<Text>)
    | Facts(schema: seq<FactRule>)
    | Native(rules: map<Text, NativeRule>)
    | Recovery
    | JournalRecovery

  datatype Policy = Policy(code: Text, message: Text, action: Option<Text>, retryable: Option<bool>, kind: Kind)

  datatype Defaults = Defaults(severity: Text, retryable: bool, action: Text)

  datatype Table = Table(
    policies: map<Text, Policy>, catalog: map<Text, Defaults>, critical: Text -> bool, readbackValid: Json -> bool)

  const DETAILS_LIMIT := 8192
  const SHORT := 256
  const LONG := 1024
  const OMITTED_CAP := 1_000_000

  const OMITTED: Text := U("omittedCount")
  const OMITTED_DIAGNOSTICS: Text := U("omittedDiagnosticCount")
  const OMITTED_CHARACTERS: Text := U("omittedDiagnosticCharacters")
  const PATH: Text := U("path")
  const ISSUES: Text := U("issues")
  const STAGE: Text := U("stage")
  const ERROR_CLASS: Text := U("errorClass")

  const UNCLASSIFIED: Text := U("AC_UNCLASSIFIED_FAILURE")
  const UNCLASSIFIED_REASON: Text := U("failure-unclassified")
  const UNCLASSIFIED_MESSAGE: Text :=
    U("The operation failed without a classified cause. Run archctx doctor --json before retrying.")
  const INSPECT: Text := U("inspect-diagnostics")
  const ERROR: Text := U("error")
  const RECONCILE: Text := U("reconcile-before-retry")
  const TRANSPORT_CODES: seq<Text> := [U("RPC_TIMEOUT"), U("RPC_ABORTED")]

  const STAGES: seq<Text> := [
    U("debt"), U("complete"), U("practice-checkpoint"), U("cli"), U("mcp"), U("hook-checkpoint"),
    U("failure-metadata"), U("public-operation"), U("native-export"), U("docs-anchors"), U("flows-check")]
  const ERROR_CLASSES: seq<Text> := [
    U("Error"), U("TypeError"), U("RangeError"), U("SyntaxError"), U("ReferenceError"), U("URIError"),
    U("EvalError"), U("AggregateError"), U("NonError")]

  // A long rule lengthens the string budget only when it is not optional.
  predicate Extended(schema: seq<FactRule>) {
    exists i :: 0 <= i < |schema| && !schema[i].optional &&
                (schema[i].rule.LongWord? || (schema[i].rule.Words? && schema[i].rule.limit > SHORT))
  }

  function StringLimit(policy: Policy): nat {
    if policy.kind.Facts? && Extended(policy.kind.schema) then LONG else SHORT
  }

  predicate DistinctSchema(schema: seq<FactRule>) {
    forall i, j :: 0 <= i < j < |schema| ==> schema[i].key != schema[j].key
  }

  predicate Declares(schema: seq<FactRule>, key: Text) { exists i :: 0 <= i < |schema| && schema[i].key == key }

  /** What the source's table keeps to; the results hold for every such table. */
  ghost predicate WellFormed(c: Table) {
    && (forall reason :: reason in c.policies ==> WellFormedPolicy(c, c.policies[reason]))
    && !c.critical(OMITTED) && !c.critical(STAGE) && !c.critical(ERROR_CLASS)
    && UNCLASSIFIED_REASON in c.policies
    && c.policies[UNCLASSIFIED_REASON] == UnclassifiedPolicy()
    && UNCLASSIFIED in c.catalog && c.catalog[UNCLASSIFIED].severity == ERROR && !c.catalog[UNCLASSIFIED].retryable
  }

  ghost predicate WellFormedPolicy(c: Table, policy: Policy) {
    && (policy.code in c.catalog || policy.code in TRANSPORT_CODES)
    && 3 * |policy.message| <= LONG
    && match policy.kind
       case Facts(schema) =>
         && DistinctSchema(schema) && !Declares(schema, OMITTED)
         && forall i :: 0 <= i < |schema| && schema[i].rule.Pairs? ==> schema[i].rule.first != schema[i].rule.second
       case Native(rules) =>
         && policy.code in c.catalog && policy.code !in TRANSPORT_CODES
         && OMITTED_DIAGNOSTICS in rules && OMITTED_CHARACTERS in rules
         && (ISSUES in rules ==>
               PATH in rules && rules[PATH].Diagnostic? && forall t: Text :: rules[PATH].accepts(t))
       case _ => true
  }

  predicate IsRecovery(policy: Policy) { policy.kind.Recovery? || policy.kind.JournalRecovery? }

  // What an unclassified failure is given: an empty stage and the class of an absent error are left out.
  function UnclassifiedInput(stage: Text, errorClass: Option<Text>): Json {
    Obj((if stage == [] then [] else [Member(STAGE, Str(stage))])
        + (if errorClass.None? then [] else [Member(ERROR_CLASS, Str(errorClass.value))]))
  }

  // What it keeps of that: a stage and an error class the contract knows.
  function UnclassifiedOutput(stage: Text, errorClass: Option<Text>): Json {
    Obj((if stage in STAGES then [Member(STAGE, Str(stage))] else [])
        + (if errorClass.Some? && errorClass.value in ERROR_CLASSES then [Member(ERROR_CLASS, Str(errorClass.value))] else []))
  }

  function UnclassifiedPolicy(): Policy {
    Policy(UNCLASSIFIED, UNCLASSIFIED_MESSAGE, Some(INSPECT), None, Plain([ERROR_CLASS]))
  }

  // ---------------------------------------------------------------------------------------------
  // Reading caller data without running it

  // An own data value: the source throws on a non-record or an accessor, and reads an absent key as undefined.
  function Read(h: Heap, v: Value, key: Text): Option<Value> {
    if !IsRecord(h, v) then None
    else
      match Find(h[v.id].props, Name(key))
      case None => Some(Undefined)
      case Some(slot) => if slot.Data? then Some(slot.value) else None
  }

  // A plain record of at most 16 enumerable own data fields.
  predicate IsDataRecord(h: Heap, v: Value) { IsRecord(h, v) && PlainRecord(h[v.id]) && |h[v.id].props| <= 16 }

  predicate IsCount(v: Value) { v.IntV? && v.value >= 0 }

  predicate FiniteNonnegative(v: Value) { IsCount(v) || (v.NumV? && v.numeral[0] != 0x2D) }

  // A list whose only own keys are its length and one element each.
  predicate IsClosedList(h: Heap, v: Value) {
    IsList(h, v) && Present(h[v.id].slots) + |h[v.id].others| == |h[v.id].slots|
  }

  // The texts of a list, if every element is own data and accepted.
  function TextItems(slots: seq<Slot>, accepts: Text -> bool): (r: Option<seq<Json>>)
    ensures r.Some? ==> |r.value| == |slots|
  {
    if slots == [] then Some([])
    else
      var n := |slots| - 1;
      var init :- TextItems(slots[..n], accepts);
      if slots[n].Data? && slots[n].value.StrV? && accepts(slots[n].value.text)
      then Some(init + [Str(slots[n].value.text)]) else None
  }

  predicate AreTexts(items: seq<Json>, accepts: Text -> bool) {
    forall i :: 0 <= i < |items| ==> items[i].Str? && accepts(items[i].text)
  }

  lemma {:induction false} TextItemsForm(slots: seq<Slot>, accepts: Text -> bool)
    requires TextItems(slots, accepts).Some?
    ensures AreTexts(TextItems(slots, accepts).value, accepts)
  {
    if slots != [] {
      TextItemsForm(slots[..|slots| - 1], accepts);
    }
  }

  lemma {:induction false} TextItemsAgain(h: Heap, slots: seq<Slot>, items: seq<Json>, accepts: Text -> bool)
    requires |slots| == |items| && AreTexts(items, accepts)
    requires forall i :: 0 <= i < |items| ==> PlainSlot(slots[i]) && Denotes(h, slots[i].value, items[i])
    ensures TextItems(slots, accepts) == Some(items)
  {
    if slots != [] {
      var n := |slots| - 1;
      TextItemsAgain(h, slots[..n], items[..n], accepts);
      assert items == items[..n] + [items[n]];
    }
  }

  // ---------------------------------------------------------------------------------------------
  // Records that denote JSON

  lemma DenotedField(h: Heap, v: Value, members: seq<Member>, i: nat)
    requires Denotes(h, v, Obj(members)) && i < |members|
    ensures IsRecord(h, v) && |h[v.id].props| == |members|
    ensures Find(h[v.id].props, Name(members[i].key)) == Some(h[v.id].props[i].slot)
    ensures PlainSlot(h[v.id].props[i].slot) && Denotes(h, h[v.id].props[i].slot.value, members[i].value)
    ensures Read(h, v, members[i].key) == Some(h[v.id].props[i].slot.value)
  {
    FindAt(h[v.id].props, i);
  }

  lemma DenotedAbsent(h: Heap, v: Value, members: seq<Member>, key: Text)
    requires Denotes(h, v, Obj(members)) && Lookup(members, key).None?
    ensures Find(h[v.id].props, Name(key)).None? && Read(h, v, key) == Some(Undefined)
  {
    LookupAbsent(members, key);
    forall i | 0 <= i < |h[v.id].props| ensures h[v.id].props[i].key != Name(key) {
      assert h[v.id].props[i].key == Name(members[i].key);
    }
  }

  lemma DenotedList(h: Heap, v: Value, items: seq<Json>)
    requires Denotes(h, v, Arr(items))
    ensures IsClosedList(h, v)
  {
    PresentAll(h[v.id].slots);
  }
}

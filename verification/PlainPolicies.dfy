/** Plain and fact details: packages/contracts/src/failure.ts, detailsFor and localFactsFor. */
module PlainPolicies {
  import opened Options
  import opened JsonText
  import opened JsHeap
  import opened FailureModel

  // The fields kept so far, and how many were dropped.
  datatype Tally = Tally(kept: seq<Member>, omitted: nat)

  function Closing(omitted: nat): seq<Member> {
    if omitted == 0 then [] else [Member(OMITTED, Int(if omitted <= OMITTED_CAP then omitted else OMITTED_CAP))]
  }

  // ---------------------------------------------------------------------------------------------
  // Plain policies

  predicate IsCheck(t: Text) { t == U("ownership") || t == U("anchors") }

  const METHODS: seq<Text> := [U("health"), U("practiceCheckpoint"), U("completeTask")]

  function Checks(h: Heap, v: Value): Option<Json> {
    if !IsList(h, v) || |h[v.id].slots| > 32 then None
    else
      var checks :- TextItems(h[v.id].slots, IsCheck);
      Some(Arr(checks))
  }

  function Fact(h: Heap, key: Text, v: Value): Option<Json> {
    if key == STAGE then if v.StrV? && v.text in STAGES then Some(Str(v.text)) else None
    else if key == ERROR_CLASS then if v.StrV? && v.text in ERROR_CLASSES then Some(Str(v.text)) else None
    else if key == U("checks") then Checks(h, v)
    else if key == U("issueCount") then if IsCount(v) then Some(FromScalar(v)) else None
    else if key == U("method") then if v.StrV? && v.text in METHODS then Some(Str(v.text)) else None
    else if key == U("timeoutMs") || key == U("elapsedMs") then if FiniteNonnegative(v) then Some(FromScalar(v)) else None
    else if key == U("mutationOutcome") && v == StrV(U("unknown")) then Some(Str(U("unknown")))
    else None
  }

  function PlainStep(c: Table, policy: Policy, h: Heap, p: Property, t: Tally): Option<Tally>
    requires policy.kind.Plain?
  {
    if p.key.Symbol? then Some(t)
    else
      var key := p.key.text;
      if c.critical(key) then None
      else if key == OMITTED && policy.code != UNCLASSIFIED && p.slot.Data? && IsCount(p.slot.value) then
        Some(t.(omitted := t.omitted + p.slot.value.value))
      else
        var known := if (key == STAGE || key in policy.kind.fields) && p.slot.Data? then Fact(h, key, p.slot.value) else None;
        if known.Some? then Some(t.(kept := t.kept + [Member(key, known.value)]))
        else if p.slot.Data? && IsObject(h, p.slot.value) then None
        else Some(t.(omitted := t.omitted + 1))
  }

  function PlainFold(c: Table, policy: Policy, h: Heap, props: seq<Property>): Option<Tally>
    requires policy.kind.Plain?
  {
    if props == [] then Some(Tally([], 0))
    else
      var t :- PlainFold(c, policy, h, props[..|props| - 1]);
      PlainStep(c, policy, h, props[|props| - 1], t)
  }

  function PlainDetails(c: Table, policy: Policy, h: Heap, input: Value): (r: Option<Json>)
    requires policy.kind.Plain?
    ensures r.Some? ==> r.value.Obj?
  {
    if !IsRecord(h, input) then None
    else
      var t :- PlainFold(c, policy, h, h[input.id].props);
      Some(Obj(t.kept + if policy.code == UNCLASSIFIED then [] else Closing(t.omitted)))
  }

  lemma PlainPrefix(c: Table, policy: Policy, h: Heap, props: seq<Property>, i: nat)
    requires policy.kind.Plain? && i < |props|
    ensures PlainFold(c, policy, h, props[..i + 1])
            == match PlainFold(c, policy, h, props[..i])
               case None => None
               case Some(t) => PlainStep(c, policy, h, props[i], t)
  {
    assert props[..i + 1][..i] == props[..i] && props[..i + 1] != [];
  }

  lemma {:induction false} PlainFails(c: Table, policy: Policy, h: Heap, props: seq<Property>, i: nat)
    requires policy.kind.Plain? && i <= |props| && PlainFold(c, policy, h, props[..i]).None?
    ensures PlainFold(c, policy, h, props).None?
    decreases |props| - i
  {
    if i == |props| {
      assert props[..i] == props;
    } else {
      PlainPrefix(c, policy, h, props, i);
      PlainFails(c, policy, h, props, i + 1);
    }
  }

  method DetailsFor(c: Table, policy: Policy, h: Heap, input: Value) returns (r: Option<Json>)
    requires policy.kind.Plain?
    ensures r == PlainDetails(c, policy, h, input)
  {
    if !IsRecord(h, input) { return None; }
    var props := h[input.id].props;
    var kept, omitted: nat := [], 0;
    hide PlainStep;
    for i := 0 to |props|
      invariant PlainFold(c, policy, h, props[..i]) == Some(Tally(kept, omitted))
    {
      PlainPrefix(c, policy, h, props, i);
      var t := PlainStep(c, policy, h, props[i], Tally(kept, omitted));
      if t.None? {
        PlainFails(c, policy, h, props, i + 1);
        return None;
      }
      kept, omitted := t.value.kept, t.value.omitted;
    }
    assert props[..|props|] == props;
    return Some(Obj(kept + if policy.code == UNCLASSIFIED then [] else Closing(omitted)));
  }

  // How many fields one property stands for: itself, or the fields it says were dropped before.
  function Weight(policy: Policy, p: Property): nat {
    if p.key.Symbol? then 0
    else if p.key.text == OMITTED && policy.code != UNCLASSIFIED && p.slot.Data? && IsCount(p.slot.value) then p.slot.value.value
    else 1
  }

  function Weights(policy: Policy, props: seq<Property>): nat {
    if props == [] then 0 else Weights(policy, props[..|props| - 1]) + Weight(policy, props[|props| - 1])
  }

  /** No field vanishes: each is kept or counted, and earlier counts are carried over. */
  lemma {:induction false} PlainConserves(c: Table, policy: Policy, h: Heap, props: seq<Property>)
    requires policy.kind.Plain? && PlainFold(c, policy, h, props).Some?
    ensures var t := PlainFold(c, policy, h, props).value; |t.kept| + t.omitted == Weights(policy, props)
  {
    hide Fact;
    if props != [] {
      PlainConserves(c, policy, h, props[..|props| - 1]);
    }
  }

  // The facts a plain field can hold.
  predicate FactForm(key: Text, j: Json) {
    || (key == STAGE && j.Str? && j.text in STAGES)
    || (key == ERROR_CLASS && j.Str? && j.text in ERROR_CLASSES)
    || (key == U("checks") && j.Arr? && |j.items| <= 32 && AreTexts(j.items, IsCheck))
    || (key == U("issueCount") && j.Int? && j.value >= 0)
    || (key == U("method") && j.Str? && j.text in METHODS)
    || ((key == U("timeoutMs") || key == U("elapsedMs")) &&
        ((j.Int? && j.value >= 0) || (j.Num? && j.numeral[0] != 0x2D)))
    || (key == U("mutationOutcome") && j == Str(U("unknown")))
  }

  lemma FactKeys()
    ensures STAGE != ERROR_CLASS && STAGE != U("checks") && ERROR_CLASS != U("checks") && STAGE != U("issueCount")
    ensures ERROR_CLASS != U("issueCount") && U("checks") != U("issueCount") && U("checks") != U("method")
    ensures forall j :: !FactForm(OMITTED, j)
  {
    assert ERROR_CLASS[0] != U("issueCount")[0] && U("checks")[0] != U("method")[0];
  }

  // What is read as a fact has its form, and any plain data of that form is read as itself.
  lemma FactIff(h: Heap, key: Text, v: Value, j: Json)
    ensures Fact(h, key, v) == Some(j) ==> FactForm(key, j)
    ensures Denotes(h, v, j) && FactForm(key, j) ==> Fact(h, key, v) == Some(j)
  {
    hide Fact, FactForm, Denotes;
    if Fact(h, key, v) == Some(j) { FactFormed(h, key, v); }
    if Denotes(h, v, j) && FactForm(key, j) { FactAgain(h, key, v, j); }
  }

  lemma FactFormed(h: Heap, key: Text, v: Value)
    requires Fact(h, key, v).Some?
    ensures FactForm(key, Fact(h, key, v).value)
  {
    hide Checks, AreTexts, IsCheck;
    if key == U("checks") { ChecksIff(h, v, Fact(h, key, v).value); }
  }

  lemma FactAgain(h: Heap, key: Text, v: Value, j: Json)
    requires Denotes(h, v, j) && FactForm(key, j)
    ensures Fact(h, key, v) == Some(j)
  {
    hide Checks, AreTexts, IsCheck;
    FactKeys();
    ChecksIff(h, v, j);
  }

  lemma ChecksIff(h: Heap, v: Value, j: Json)
    ensures Checks(h, v) == Some(j) ==> j.Arr? && |j.items| <= 32 && AreTexts(j.items, IsCheck)
    ensures Denotes(h, v, j) && j.Arr? && |j.items| <= 32 && AreTexts(j.items, IsCheck) ==> Checks(h, v) == Some(j)
  {
    hide AreTexts;
    if Checks(h, v) == Some(j) {
      TextItemsForm(h[v.id].slots, IsCheck);
    }
    if Denotes(h, v, j) && j.Arr? && AreTexts(j.items, IsCheck) {
      TextItemsAgain(h, h[v.id].slots, j.items, IsCheck);
    }
  }

  predicate KeptPlain(c: Table, policy: Policy, m: Member)
    requires policy.kind.Plain?
  {
    !c.critical(m.key) && (m.key == STAGE || m.key in policy.kind.fields) && FactForm(m.key, m.value)
  }

  lemma {:induction false} PlainKeeps(c: Table, policy: Policy, h: Heap, props: seq<Property>)
    requires policy.kind.Plain? && PlainFold(c, policy, h, props).Some?
    ensures forall m :: m in PlainFold(c, policy, h, props).value.kept ==> KeptPlain(c, policy, m)
  {
    hide Fact, FactForm;
    if props != [] {
      var n := |props| - 1;
      PlainKeeps(c, policy, h, props[..n]);
      if props[n].slot.Data? && props[n].key.Name? {
        var f := Fact(h, props[n].key.text, props[n].slot.value);
        if f.Some? { FactIff(h, props[n].key.text, props[n].slot.value, f.value); }
      }
    }
  }

  // A kept field is kept again, from any plain data holding it.
  lemma KeptAgain(c: Table, policy: Policy, h: Heap, p: Property, m: Member, t: Tally)
    requires policy.kind.Plain? && KeptPlain(c, policy, m)
    requires p.key == Name(m.key) && PlainSlot(p.slot) && Denotes(h, p.slot.value, m.value)
    ensures PlainStep(c, policy, h, p, t) == Some(t.(kept := t.kept + [m]))
  {
    hide Fact, FactForm, Denotes;
    FactKeys();
    FactIff(h, m.key, p.slot.value, m.value);
    assert m == Member(m.key, m.value);
  }

  lemma {:induction false} FoldAgain(c: Table, policy: Policy, h: Heap, props: seq<Property>, kept: seq<Member>)
    requires policy.kind.Plain? && |props| == |kept| && forall m :: m in kept ==> KeptPlain(c, policy, m)
    requires forall i :: 0 <= i < |kept| ==>
               props[i].key == Name(kept[i].key) && PlainSlot(props[i].slot) && Denotes(h, props[i].slot.value, kept[i].value)
    ensures PlainFold(c, policy, h, props) == Some(Tally(kept, 0))
  {
    hide PlainStep, KeptPlain, Denotes;
    if props != [] {
      var n := |props| - 1;
      FoldAgain(c, policy, h, props[..n], kept[..n]);
      KeptAgain(c, policy, h, props[n], kept[n], Tally(kept[..n], 0));
      assert kept == kept[..n] + [kept[n]];
    }
  }

  /** Details taken from details are the same details. */
  lemma PlainAgain(c: Table, policy: Policy, h: Heap, input: Value, g: Heap, v: Value)
    requires policy.kind.Plain? && !c.critical(OMITTED)
    requires PlainDetails(c, policy, h, input).Some? && Denotes(g, v, PlainDetails(c, policy, h, input).value)
    ensures PlainDetails(c, policy, g, v) == PlainDetails(c, policy, h, input)
  {
    var t := PlainFold(c, policy, h, h[input.id].props).value;
    PlainKeeps(c, policy, h, h[input.id].props);
    var closing := if policy.code == UNCLASSIFIED then [] else Closing(t.omitted);
    var members := t.kept + closing;
    var props := g[v.id].props;
    var k := |t.kept|;
    assert forall i :: 0 <= i < k ==> members[i] == t.kept[i];
    hide PlainStep, KeptPlain;
    FoldAgain(c, policy, g, props[..k], t.kept);
    if closing == [] {
      assert props[..k] == props && members == t.kept;
    } else {
      assert members[k] == closing[0] && props[..k + 1] == props;
      PlainPrefix(c, policy, g, props, k);
      CountAgain(c, policy, g, props[k], closing[0], Tally(t.kept, 0));
    }
  }

  lemma CountAgain(c: Table, policy: Policy, h: Heap, p: Property, m: Member, t: Tally)
    requires policy.kind.Plain? && !c.critical(OMITTED) && policy.code != UNCLASSIFIED
    requires m.key == OMITTED && m.value.Int? && m.value.value > 0
    requires p.key == Name(m.key) && PlainSlot(p.slot) && Denotes(h, p.slot.value, m.value)
    ensures PlainStep(c, policy, h, p, t) == Some(t.(omitted := t.omitted + m.value.value))
  {}
}

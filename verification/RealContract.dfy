/** The contract of a table, taking details as its policies say. */
module RealContract {
  import opened Options
  import opened JsonText
  import opened JsonFacts
  import opened JsHeap
  import opened JsAllocation
  import opened FailureModel
  import opened PlainPolicies
  import opened PolicyDetails
  import opened DetailsBudget
  import opened DetailsStorage
  import opened FailureContract
  import ProjectionRecovery

  ghost function Taken(t: Table, reason: Text, h: Heap, v: Value): Option<Json> {
    if reason in t.policies && WellFormedPolicy(t, t.policies[reason]) then Details(t, reason, t.policies[reason], h, v) else None
  }

  ghost function Real(t: Table): Contract { Contract(t, (reason: Text, h: Heap, v: Value) => Taken(t, reason, h, v)) }

  /** The contract takes details as its table says; the one above does, and any that does behaves the same. */
  ghost predicate ByTable(c: Contract) {
    forall reason, h, v :: c.take(reason, h, v) == Taken(c.table, reason, h, v)
  }

  lemma RealByTable(t: Table)
    ensures Real(t).table == t && ByTable(Real(t))
  {
    hide Taken;
  }

  lemma TableAgain(c: Contract)
    requires WellFormed(c.table) && ByTable(c)
    ensures TakesAgain(c)
  {
    hide Details, WellFormedPolicy, Denotes, InBudget, SameDetails;
    var t := c.table;
    forall reason, h, v, g, w |
      reason in t.policies && c.take(reason, h, v).Some? && Denotes(g, w, c.take(reason, h, v).value) &&
      (IsRecovery(PolicyOf(c, reason)) || InBudget(c.take(reason, h, v).value, 0, StringLimit(PolicyOf(c, reason))))
      ensures c.take(reason, g, w).Some? &&
              SameDetails(PolicyOf(c, reason), c.take(reason, h, v).value, c.take(reason, g, w).value)
    {
      var details := Details(t, reason, t.policies[reason], h, v).value;
      if !IsRecovery(t.policies[reason]) { FewFields(details, StringLimit(t.policies[reason])); }
      DetailsAgain(t, reason, t.policies[reason], h, v, g, w);
    }
  }

  lemma FewFields(details: Json, limit: nat)
    requires InBudget(details, 0, limit) && details.Obj?
    ensures |details.members| <= 16
  {}

  lemma TableStorable(c: Contract)
    requires WellFormed(c.table) && ByTable(c)
    ensures TakesStorable(c) && TakesRecords(c) && TakesFitting(c)
  {
    hide Details, WellFormedPolicy, Storable, InBudget, Size;
    var t := c.table;
    forall reason, h, v |
      reason in t.policies && c.take(reason, h, v).Some? &&
      (IsRecovery(PolicyOf(c, reason)) || InBudget(c.take(reason, h, v).value, 0, StringLimit(PolicyOf(c, reason))))
      ensures Storable(c.take(reason, h, v).value)
    {
      DetailsStorable(t, reason, t.policies[reason], h, v);
    }
    forall reason, h, v | reason in t.policies && IsRecovery(PolicyOf(c, reason)) && c.take(reason, h, v).Some?
      ensures Size(c.take(reason, h, v).value) <= ProjectionRecovery.LIMIT_BYTES
    {
      RecoveryFits(t, reason, t.policies[reason], h, v);
    }
  }

  lemma TableEmpty(c: Contract)
    requires WellFormed(c.table) && ByTable(c)
    ensures TakesEmpty(c)
  {
    hide Details, WellFormedPolicy, Denotes;
    var t := c.table;
    forall reason, h, v, g, w | reason in t.policies && Denotes(h, v, Obj([])) && Denotes(g, w, Obj([]))
      ensures c.take(reason, h, v) == c.take(reason, g, w)
    {
      EmptyDetails(t, reason, t.policies[reason], h, v, g, w);
    }
  }

  lemma TableUnclassified(c: Contract)
    requires WellFormed(c.table) && ByTable(c)
    ensures TakesUnclassified(c)
  {
    hide PlainDetails, WellFormedPolicy, Denotes, UnclassifiedInput, UnclassifiedOutput;
    var t := c.table;
    forall stage, errorClass, h, v | Denotes(h, v, UnclassifiedInput(stage, errorClass))
      ensures c.take(UNCLASSIFIED_REASON, h, v) == Some(UnclassifiedOutput(stage, errorClass))
    {
      UnclassifiedTaken(t, h, v, stage, errorClass);
    }
  }

  /** Every well-formed table is a lawful contract: over plain, fact, native and recovery policies details are taken again. */
  lemma TableLawful(c: Contract)
    requires WellFormed(c.table) && ByTable(c)
    ensures Lawful(c)
  {
    hide Taken, ByTable, WellFormed, TakesAgain, TakesRecords, TakesStorable, TakesFitting, TakesUnclassified, TakesEmpty;
    TableEmpty(c);
    TableAgain(c);
    TableStorable(c);
    TableUnclassified(c);
  }

  lemma RealLawful(t: Table)
    requires WellFormed(t)
    ensures Lawful(Real(t))
  {
    hide ByTable, WellFormed, Lawful;
    RealByTable(t);
    TableLawful(Real(t));
  }
}

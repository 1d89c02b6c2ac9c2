/** A few policies of the real table, one or more of each kind: packages/contracts/src/failure.ts, schema.ts. */
module FailureTable {
  import opened Options
  import opened JsonText
  import opened FailureModel
  import opened FailureContract
  import opened RealContract
  import opened ProjectionRecovery

  // ---------------------------------------------------------------------------------------------
  // Keys that bind a recovery: the end "id", or one of five words anywhere, in any case

  function Lower(u: CodeUnit): CodeUnit { if 0x41 <= u <= 0x5A then u + 0x20 else u }

  predicate MatchesAt(t: Text, i: nat, word: Text) {
    i + |word| <= |t| && forall k :: 0 <= k < |word| ==> Lower(t[i + k]) == word[k]
  }

  predicate Mentions(t: Text, word: Text) { exists i: nat :: i <= |t| && MatchesAt(t, i, word) }

  const BINDING_WORDS: seq<Text> := [U("digest"), U("receipt"), U("binding"), U("readback"), U("lookupkey")]

  predicate Critical(key: Text) {
    (|key| >= 2 && MatchesAt(key, |key| - 2, U("id"))) || exists w :: w in BINDING_WORDS && Mentions(key, w)
  }

  // A word is not mentioned in a key that is too short for it or lacks one of its letters.
  lemma NotMentioned(key: Text, word: Text, k: nat)
    requires |key| < |word| || (k < |word| && forall i :: 0 <= i < |key| ==> Lower(key[i]) != word[k])
    ensures !Mentions(key, word)
  {
    forall i: nat | i <= |key| ensures !MatchesAt(key, i, word) {
      if i + |word| <= |key| {
        assert Lower(key[i + k]) != word[k];
      }
    }
  }

  lemma ReservedKeys()
    ensures !Critical(OMITTED) && !Critical(STAGE) && !Critical(ERROR_CLASS)
  {
    hide Mentions, MatchesAt;
    forall w | w in BINDING_WORDS ensures !Mentions(OMITTED, w) && !Mentions(STAGE, w) && !Mentions(ERROR_CLASS, w) {
      OmittedMentions(w);
      NotMentioned(STAGE, w, 0);
      ErrorClassMentions(w);
    }
    LastLetters();
  }

  lemma LastLetters()
    ensures !MatchesAt(OMITTED, |OMITTED| - 2, U("id")) && !MatchesAt(STAGE, |STAGE| - 2, U("id"))
    ensures !MatchesAt(ERROR_CLASS, |ERROR_CLASS| - 2, U("id"))
  {
    assert Lower(OMITTED[10]) != U("id")[0] && Lower(STAGE[3]) != U("id")[0] && Lower(ERROR_CLASS[8]) != U("id")[0];
  }

  // The letters d of digest and readback, r of receipt and so on, wherever one is missing.
  lemma OmittedMentions(w: Text)
    requires w in BINDING_WORDS
    ensures !Mentions(OMITTED, w)
  {
    hide Mentions;
    if w == U("digest") { NotMentioned(OMITTED, w, 2); }
    else { NotMentioned(OMITTED, w, 0); }
  }

  lemma ErrorClassMentions(w: Text)
    requires w in BINDING_WORDS
    ensures !Mentions(ERROR_CLASS, w)
  {
    hide Mentions;
    if w == U("receipt") { NotMentioned(ERROR_CLASS, w, 5); }
    else if w == U("readback") || w == U("lookupkey") { NotMentioned(ERROR_CLASS, w, 3); }
    else { NotMentioned(ERROR_CLASS, w, 0); }
  }

  // ---------------------------------------------------------------------------------------------
  // The policies

  const PRECONDITION: Text := U("AC_PRECONDITION_FAILED")
  const EVIDENCE_REQUIRED: Text := U("AC_REFACTOR_EVIDENCE_REQUIRED")
  const NOT_FOUND: Text := U("AC_REPO_NOT_FOUND")
  const SCHEMA_INVALID: Text := U("AC_SCHEMA_INVALID")
  const COMMITTED: Text := U("AC_PROJECTION_APPLY_COMMITTED")

  const WORKTREE_REQUIRED := Policy(
    NOT_FOUND, U("This operation requires a Git worktree."), None, None, Plain([U("checks")]))

  const CLAIM_CHANGED := Policy(
    PRECONDITION, U("Worktree digest changed before ledger write."), None, None,
    Facts([FactRule(U("expectedWorktreeDigest"), false, Word(DigestForm)),
           FactRule(U("actualWorktreeDigest"), false, Word(DigestForm))]))

  predicate AnyText(t: Text) { true }

  predicate NonEmpty(t: Text) { t != [] }

  const DECISION_STATUSES: seq<Text> := [
    U("acknowledged"), U("accepted"), U("deferred"), U("rejected"), U("resolved"), U("waived")]

  predicate DecisionStatus(t: Text) { t in DECISION_STATUSES }

  // A suggested command line of two of the program's commands.
  predicate Suggestion(t: Text) {
    (U("archctx recommendations ") <= t || U("archctx refactor verify ") <= t) && 0x0A !in t && 0x0D !in t
  }

  const PATH_COUNT: Text := U("pathCount")
  const COMMANDS: Text := U("commands")
  const OMITTED_PATHS: Text := U("omittedPathCount")
  const RECORD_COMMAND: Text := U("recordCommand")
  const VERIFY_COMMAND: Text := U("verifyCommand")

  const MODEL_IGNORED := Policy(
    PRECONDITION,
    U("Git ignore rules exclude architecture model paths, so the model cannot be committed and a manifest digest cannot rebuild it.")
    + U(" Remove or narrow the rule, commit the model, then retry adoption.")
    + U(" The diagnostic command prints each deciding rule."),
    Some(U("commit-architecture-model")), None,
    Facts([FactRule(PATH_COUNT, false, Uint), FactRule(U("paths"), true, Words(8, SHORT, AnyText)),
           FactRule(COMMANDS, true, Words(2, LONG, AnyText)), FactRule(OMITTED_PATHS, false, Uint)]))

  const DECISION_UNRECORDED := Policy(
    EVIDENCE_REQUIRED, U("Git decision not recorded."), None, None,
    Facts([FactRule(U("recommendationId"), false, Word(NonEmpty)), FactRule(U("decisionStatus"), false, Word(DecisionStatus)),
           FactRule(RECORD_COMMAND, false, LongWord(Suggestion, true)),
           FactRule(VERIFY_COMMAND, false, LongWord(Suggestion, true))]))

  const MODEL_INVALID_RULES: map<Text, NativeRule> := map[
    PATH := Diagnostic(AnyText), U("invariant") := Diagnostic(AnyText), ISSUES := Issues,
    OMITTED_DIAGNOSTICS := Count, OMITTED_CHARACTERS := Count]

  const MODEL_INVALID := Policy(
    SCHEMA_INVALID, U("native-context-model-invalid"), Some(U("repair-native-input")), Some(false), Native(MODEL_INVALID_RULES))

  const CHANGE_COMMITTED := Policy(
    COMMITTED,
    U("This accepted change is already committed. When available, send error.details.readbackRequest unchanged to projection readback; use the original identities for explicit recovery."),
    None, None, Recovery)

  const JOURNALS_UNRESOLVED := Policy(
    PRECONDITION,
    U("changeset-recovery-unresolved: startup journals require repair; inspect the complete recovery authority and restart archctxd to retry recovery."),
    None, None, JournalRecovery)

  function Sample(readbackValid: Json -> bool): Table {
    Table(
      map[U("git-worktree-required") := WORKTREE_REQUIRED,
          U("ledger-worktree-claim-changed") := CLAIM_CHANGED,
          U("architecture-model-ignored") := MODEL_IGNORED,
          U("git-decision-not-recorded") := DECISION_UNRECORDED,
          U("native-context-model-invalid") := MODEL_INVALID,
          U("projection-accepted-change-committed") := CHANGE_COMMITTED,
          U("changeset-recovery-unresolved") := JOURNALS_UNRESOLVED,
          UNCLASSIFIED_REASON := UnclassifiedPolicy()],
      map[NOT_FOUND := Defaults(ERROR, false, U("open-correct-repository")),
          SCHEMA_INVALID := Defaults(ERROR, false, U("repair-model")),
          EVIDENCE_REQUIRED := Defaults(ERROR, false, U("run-refactor-verify")),
          PRECONDITION := Defaults(U("warning"), true, U("rebuild-plan")),
          COMMITTED := Defaults(ERROR, false, U("readback-committed-projection-apply")),
          UNCLASSIFIED := Defaults(ERROR, false, INSPECT)],
      Critical, readbackValid)
  }

  lemma CodesDistinct()
    ensures forall r: Json -> bool ::
              NOT_FOUND in Sample(r).catalog && SCHEMA_INVALID in Sample(r).catalog && PRECONDITION in Sample(r).catalog &&
              EVIDENCE_REQUIRED in Sample(r).catalog &&
              COMMITTED in Sample(r).catalog && UNCLASSIFIED in Sample(r).catalog &&
              Sample(r).catalog[UNCLASSIFIED] == Defaults(ERROR, false, INSPECT)
  {}

  lemma FactsDistinct()
    ensures DistinctSchema(CLAIM_CHANGED.kind.schema)
    ensures DistinctSchema(MODEL_IGNORED.kind.schema) && !Declares(MODEL_IGNORED.kind.schema, OMITTED)
    ensures !Declares(CLAIM_CHANGED.kind.schema, OMITTED)
    ensures DistinctSchema(DECISION_UNRECORDED.kind.schema) && !Declares(DECISION_UNRECORDED.kind.schema, OMITTED)
  {
    var d := DECISION_UNRECORDED.kind.schema;
    assert |d[0].key| == 16 && |d[1].key| == 14 && d[2].key[0] == 0x72 && d[3].key[0] == 0x76 && |d[2].key| == |d[3].key| == 13;
    assert |CLAIM_CHANGED.kind.schema[0].key| == 22 && |CLAIM_CHANGED.kind.schema[1].key| == 20;
    var s := MODEL_IGNORED.kind.schema;
    assert |s[0].key| == 9 && |s[1].key| == 5 && |s[2].key| == 8 && |s[3].key| == 16 && |OMITTED| == 12;
  }

  lemma TableCases(c: Table, readbackValid: Json -> bool, reason: Text)
    requires c == Sample(readbackValid) && reason in c.policies
    ensures var p := c.policies[reason];
            p == WORKTREE_REQUIRED || p == CLAIM_CHANGED || p == MODEL_IGNORED || p == DECISION_UNRECORDED || p == MODEL_INVALID ||
            p == CHANGE_COMMITTED || p == JOURNALS_UNRESOLVED || p == UnclassifiedPolicy()
  {}

  lemma SimpleWellFormed(c: Table, p: Policy)
    requires p.code in c.catalog && |p.message| <= 341 && (p.kind.Plain? || p.kind.Recovery? || p.kind.JournalRecovery?)
    ensures WellFormedPolicy(c, p)
  {}

  lemma FactsWellFormed(c: Table, p: Policy)
    requires p.code in c.catalog && |p.message| <= 341 && p.kind.Facts?
    requires DistinctSchema(p.kind.schema) && !Declares(p.kind.schema, OMITTED)
    requires forall i :: 0 <= i < |p.kind.schema| ==> !p.kind.schema[i].rule.Pairs?
    ensures WellFormedPolicy(c, p)
  {}

  lemma NativeWellFormed(c: Table)
    requires SCHEMA_INVALID in c.catalog
    ensures WellFormedPolicy(c, MODEL_INVALID)
  {
    assert |SCHEMA_INVALID| == 17 && |TRANSPORT_CODES[0]| == 11 && |TRANSPORT_CODES[1]| == 11;
  }

  /** The results that hold for every lawful contract hold for this table. */
  lemma SampleLawful(readbackValid: Json -> bool)
    ensures Lawful(Real(Sample(readbackValid)))
  {
    hide *;
    SampleWellFormed(readbackValid);
    RealLawful(Sample(readbackValid));
  }

  lemma SampleWellFormed(readbackValid: Json -> bool)
    ensures WellFormed(Sample(readbackValid))
  {
    hide WellFormedPolicy, Critical, DistinctSchema, Declares;
    var c := Sample(readbackValid);
    ReservedKeys();
    CodesDistinct();
    FactsDistinct();
    SimpleWellFormed(c, WORKTREE_REQUIRED);
    FactsWellFormed(c, CLAIM_CHANGED);
    FactsWellFormed(c, MODEL_IGNORED);
    FactsWellFormed(c, DECISION_UNRECORDED);
    NativeWellFormed(c);
    SimpleWellFormed(c, CHANGE_COMMITTED);
    SimpleWellFormed(c, JOURNALS_UNRESOLVED);
    SimpleWellFormed(c, UnclassifiedPolicy());
    forall reason | reason in c.policies ensures WellFormedPolicy(c, c.policies[reason]) {
      TableCases(c, readbackValid, reason);
    }
  }
}

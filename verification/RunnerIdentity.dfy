/** The runner identity state machine: packages/contracts/src/github-governance.ts. */
module RunnerIdentity {
  import opened Options
  import opened JsonText
  import opened Sorting
  import opened ProjectionRecovery

  datatype Status = Active | Rotating | Revoked

  datatype Scope = Organization | Repositories(ids: seq<int>)

  datatype Identity = Identity(
    runnerId: Text, installationId: int, repositoryIds: seq<int>, scope: Option<Scope>, workflowRef: Text,
    publicKeyId: Text, publicKeyFingerprint: Text, status: Status, createdAt: Text,
    rotatedAt: Option<Text>, revokedAt: Option<Text>)

  // Text forms the source checks with a regular expression or the date parser.
  datatype Forms = Forms(runnerId: Text -> bool, workflowRef: Text -> bool, date: Text -> bool)

  predicate Timestamp(forms: Forms, t: Text) { t != [] && forms.date(t) }

  predicate NullableTimestamp(forms: Forms, t: Option<Text>) { t.Some? ==> Timestamp(forms, t.value) }

  // ---------------------------------------------------------------------------------------------
  // Repository ids

  predicate Positive(ids: seq<int>) { forall i :: 0 <= i < |ids| ==> ids[i] > 0 }

  const NUMERIC: (int, int) -> bool := (a, b) => a <= b

  function Normalize(ids: seq<int>): seq<int> { Sort(Dedupe(ids), NUMERIC) }

  predicate Ascending(ids: seq<int>) { forall i, j :: 0 <= i < j < |ids| ==> ids[i] < ids[j] }

  // Normal forms ascend, hold the same ids, and are equal exactly when the ids are the same as a set.
  lemma NormalizeSet(a: seq<int>, b: seq<int>)
    ensures Normalize(a) == Normalize(b) <==> Covered(a, b) && Covered(b, a)
    ensures forall x :: x in Normalize(a) <==> x in a
    ensures Ascending(Normalize(a))
  {
    DedupeSorted(a, b, NUMERIC);
    DedupeOrdered(a, NUMERIC);
    hide Sort, Dedupe;
  }

  function NormalizeScope(scope: Scope): Option<Scope> {
    match scope
    case Organization => Some(Organization)
    case Repositories(ids) => if !Positive(ids) || Normalize(ids) == [] then None else Some(Repositories(Normalize(ids)))
  }

  // ---------------------------------------------------------------------------------------------
  // The accepted identities

  predicate ScopeAccepted(identity: Identity) {
    Positive(identity.repositoryIds) &&
    var repositoryIds := Normalize(identity.repositoryIds);
    var scope := NormalizeScope(if identity.scope.Some? then identity.scope.value else Repositories(repositoryIds));
    scope.Some? &&
    match scope.value
    case Organization => repositoryIds == []
    case Repositories(ids) => repositoryIds != [] && Normalize(repositoryIds) == Normalize(ids)
  }

  predicate KeysAccepted(forms: Forms, identity: Identity) {
    identity.runnerId != [] && forms.runnerId(identity.runnerId) && identity.installationId > 0 &&
    identity.workflowRef != [] && forms.workflowRef(identity.workflowRef) &&
    identity.publicKeyId != [] && DigestForm(identity.publicKeyFingerprint) && Timestamp(forms, identity.createdAt)
  }

  predicate StampsAccepted(forms: Forms, identity: Identity) {
    && NullableTimestamp(forms, identity.rotatedAt) && NullableTimestamp(forms, identity.revokedAt)
    && (identity.status == Rotating ==> identity.rotatedAt.Some?)
    && (identity.status == Revoked ==> identity.revokedAt.Some?)
    && (identity.status != Revoked ==> identity.revokedAt.None?)
  }

  // A time that is given and valid.
  predicate Given(forms: Forms, t: Option<Text>) { t.Some? && t.value != [] && forms.date(t.value) }

  /** An active identity has no revocation, a rotating one a rotation and no revocation, a revoked one a revocation. */
  lemma StampsIff(forms: Forms, identity: Identity)
    ensures StampsAccepted(forms, identity) <==>
            match identity.status
            case Active => identity.revokedAt.None? && (identity.rotatedAt.None? || Given(forms, identity.rotatedAt))
            case Rotating => identity.revokedAt.None? && Given(forms, identity.rotatedAt)
            case Revoked => Given(forms, identity.revokedAt) && (identity.rotatedAt.None? || Given(forms, identity.rotatedAt))
  {}

  /** The keys are accepted exactly when each is given and has its form. */
  lemma KeysIff(forms: Forms, identity: Identity)
    ensures KeysAccepted(forms, identity) <==>
            && (forall t :: t in [identity.runnerId, identity.workflowRef, identity.publicKeyId, identity.createdAt] ==> t != [])
            && forms.runnerId(identity.runnerId) && forms.workflowRef(identity.workflowRef) && forms.date(identity.createdAt)
            && DigestForm(identity.publicKeyFingerprint) && identity.installationId >= 1
  {
    var texts := [identity.runnerId, identity.workflowRef, identity.publicKeyId, identity.createdAt];
    assert texts[0] in texts && texts[1] in texts && texts[2] in texts && texts[3] in texts;
  }

  predicate Accepted(forms: Forms, identity: Identity) {
    KeysAccepted(forms, identity) && ScopeAccepted(identity) && StampsAccepted(forms, identity)
  }

  /** A scope is accepted exactly when it is the organization without repositories, or some repositories, listed by both. */
  lemma ScopeAcceptedIff(identity: Identity)
    ensures ScopeAccepted(identity) <==>
            if identity.scope == Some(Organization) then identity.repositoryIds == []
            else
              && identity.repositoryIds != [] && (forall id :: id in identity.repositoryIds ==> id > 0)
              && (identity.scope.Some? ==> forall id :: id in identity.scope.value.ids <==> id in identity.repositoryIds)
  {
    hide Normalize, Positive;
    var ids := identity.repositoryIds;
    NormalIds(ids);
    SameNormal(ids, ids);
    if identity.scope.Some? && identity.scope.value.Repositories? {
      NormalIds(identity.scope.value.ids);
      SameNormal(ids, identity.scope.value.ids);
    } else {
      NormalIds(Normalize(ids));
    }
  }

  lemma PositiveIff(ids: seq<int>)
    ensures Positive(ids) <==> forall id :: id in ids ==> id > 0
  {
    if Positive(ids) {
      forall id | id in ids ensures id > 0 { var i :| 0 <= i < |ids| && ids[i] == id; }
    } else {
      var i :| 0 <= i < |ids| && ids[i] <= 0;
      assert ids[i] in ids;
    }
  }

  lemma CoveredIff(a: seq<int>, b: seq<int>)
    ensures Covered(a, b) <==> forall id :: id in a ==> id in b
  {
    if Covered(a, b) {
      forall id | id in a ensures id in b { var i :| 0 <= i < |a| && a[i] == id; }
    } else {
      var i :| 0 <= i < |a| && a[i] !in b;
      var id := a[i];
      assert id in a && id !in b;
    }
  }

  // Normal forms hold the same ids, positive ones and none alike.
  lemma NormalIds(ids: seq<int>)
    ensures Normalize(ids) == [] <==> ids == []
    ensures Positive(ids) <==> forall id :: id in ids ==> id > 0
    ensures Positive(Normalize(ids)) <==> Positive(ids)
  {
    hide Normalize, Positive;
    NormalizeSet(ids, []);
    PositiveIff(ids);
    PositiveIff(Normalize(ids));
    if ids != [] {
      var id := ids[0];
      assert id in ids && id in Normalize(ids);
    } else {
      NoneNormal();
    }
  }

  lemma NoneNormal()
    ensures Normalize([]) == []
  {}

  lemma NormalSame(a: seq<int>, b: seq<int>)
    ensures Normalize(a) == Normalize(b) <==> forall id :: id in a <==> id in b
  {
    hide Normalize, Covered;
    NormalizeSet(a, b);
    CoveredIff(a, b);
    CoveredIff(b, a);
  }

  lemma SameNormal(a: seq<int>, b: seq<int>)
    ensures Normalize(Normalize(a)) == Normalize(Normalize(b)) <==> forall id :: id in a <==> id in b
    ensures Normalize(Normalize(Normalize(a))) == Normalize(Normalize(a)) == Normalize(a)
  {
    hide Normalize;
    NormalizeSet(a, a);
    NormalizeSet(b, b);
    NormalSame(Normalize(a), a);
    NormalSame(Normalize(b), b);
    NormalSame(a, b);
  }

  // ---------------------------------------------------------------------------------------------
  // Operations

  function Transitions(from: Status): seq<Status> {
    match from
    case Active => [Rotating, Revoked]
    case Rotating => [Active, Revoked]
    case Revoked => []
  }

  predicate CanTransition(from: Status, to: Status) { to in Transitions(from) }

  function Create(forms: Forms, input: Identity): Option<Identity> {
    var scope :- if input.scope.Some? then NormalizeScope(input.scope.value)
                 else NormalizeScope(Repositories(input.repositoryIds));
    var identity := input.(scope := Some(scope), repositoryIds := if scope.Organization? then [] else scope.ids);
    if Accepted(forms, identity) then Some(identity) else None
  }

  function Next(identity: Identity, to: Status, changedAt: Text): Identity {
    identity.(
      status := to,
      rotatedAt := if to == Rotating || (identity.status == Rotating && to == Active) then Some(changedAt) else identity.rotatedAt,
      revokedAt := if to == Revoked then Some(changedAt) else None)
  }

  // Fails on an identity, a status change or a timestamp it does not accept, or if the result is not accepted.
  function Transition(forms: Forms, identity: Identity, to: Status, changedAt: Text): Option<Identity> {
    if !Accepted(forms, identity) || !CanTransition(identity.status, to) || !Timestamp(forms, changedAt) then None
    else if !Accepted(forms, Next(identity, to, changedAt)) then None
    else Some(Next(identity, to, changedAt))
  }

  function EffectiveScope(forms: Forms, identity: Identity): Option<Scope> {
    if !Accepted(forms, identity) then None
    else Some(if identity.scope.Some? then identity.scope.value else Repositories(Normalize(identity.repositoryIds)))
  }

  function MatchesScope(forms: Forms, identity: Identity, installationId: int, repositoryId: int, workflowRef: Option<Text>)
    : Option<bool>
  {
    if !Accepted(forms, identity) || installationId <= 0 || repositoryId <= 0 then None
    else if identity.installationId != installationId then Some(false)
    else if workflowRef.Some? && identity.workflowRef != workflowRef.value then Some(false)
    else
      var scope :- EffectiveScope(forms, identity);
      Some(scope.Organization? || repositoryId in scope.ids)
  }

  // ---------------------------------------------------------------------------------------------
  // Single steps

  /** Any change of status is in the table but one from revoked. */
  lemma TransitionTable(from: Status, to: Status)
    ensures CanTransition(from, to) <==> from != to && from != Revoked
  {}

  /** The closing assertion never fires: a step succeeds exactly when its inputs are accepted. */
  lemma TransitionIff(forms: Forms, identity: Identity, to: Status, changedAt: Text)
    ensures Transition(forms, identity, to, changedAt).Some? <==>
            Accepted(forms, identity) && CanTransition(identity.status, to) && Timestamp(forms, changedAt)
  {
    hide Positive, Normalize;
  }

  /** Creating an identity normalises its scope: the ids kept are those of the scope, each once, in order. */
  lemma CreateAccepted(forms: Forms, input: Identity)
    requires Create(forms, input).Some?
    ensures var made := Create(forms, input).value;
            Accepted(forms, made) && made.scope.Some? &&
            made.repositoryIds == (if made.scope.value.Organization? then [] else made.scope.value.ids) &&
            made.scope == NormalizeScope(GivenScope(input)) &&
            (GivenScope(input).Repositories? ==>
               Ascending(made.repositoryIds) && forall id :: id in made.repositoryIds <==> id in GivenScope(input).ids) &&
            made == input.(scope := made.scope, repositoryIds := made.repositoryIds)
  {
    if GivenScope(input).Repositories? { NormalizeSet(GivenScope(input).ids, []); }
    hide Normalize;
  }

  /** An identity can be created exactly when its keys and stamps are accepted and its scope names the organization or some ids. */
  lemma CreateIff(forms: Forms, input: Identity)
    ensures Create(forms, input).Some? <==>
            && KeysAccepted(forms, input) && StampsAccepted(forms, input)
            && (GivenScope(input).Repositories? ==>
                  GivenScope(input).ids != [] && forall id :: id in GivenScope(input).ids ==> id > 0)
  {
    hide Normalize;
    if GivenScope(input).Repositories? {
      var ids := GivenScope(input).ids;
      NormalIds(ids);
      NormalizeSet(ids, []);
      SameNormal(ids, ids);
      var made := input.(scope := Some(Repositories(Normalize(ids))), repositoryIds := Normalize(ids));
      NormalIds(Normalize(ids));
      ScopeAcceptedIff(made);
      assert KeysAccepted(forms, made) == KeysAccepted(forms, input) && StampsAccepted(forms, made) == StampsAccepted(forms, input);
      hide ScopeAccepted, Positive;
    } else {
      ScopeAcceptedIff(input.(scope := Some(Organization), repositoryIds := []));
    }
  }

  // The scope asked for; without one, the repositories asked for.
  function GivenScope(input: Identity): Scope {
    if input.scope.Some? then input.scope.value else Repositories(input.repositoryIds)
  }

  // ---------------------------------------------------------------------------------------------
  // Runs

  datatype Change = Change(to: Status, at: Text)

  // The identity after a run of changes, if every step succeeds.
  function Run(forms: Forms, identity: Identity, changes: seq<Change>): Option<Identity> {
    if changes == [] then Some(identity)
    else
      var before :- Run(forms, identity, changes[..|changes| - 1]);
      Transition(forms, before, changes[|changes| - 1].to, changes[|changes| - 1].at)
  }

  // The statuses of a run follow the transition table and its timestamps are valid.
  predicate Permitted(forms: Forms, from: Status, changes: seq<Change>)
    decreases |changes|
  {
    if changes == [] then true
    else CanTransition(from, changes[0].to) && Timestamp(forms, changes[0].at) && Permitted(forms, changes[0].to, changes[1..])
  }

  lemma {:induction false} RunFirst(forms: Forms, identity: Identity, changes: seq<Change>)
    requires changes != []
    ensures var first := Transition(forms, identity, changes[0].to, changes[0].at);
            Run(forms, identity, changes) == if first.Some? then Run(forms, first.value, changes[1..]) else None
  {
    hide Transition;
    var n := |changes| - 1;
    if n == 0 {
      assert changes[..0] == [] && changes[1..] == [];
    } else {
      assert changes[..n][1..] == changes[1..][..n - 1] && changes[..n][0] == changes[0];
      RunFirst(forms, identity, changes[..n]);
    }
  }

  /** A run from an accepted identity succeeds exactly when every step is permitted, and stays accepted. */
  lemma {:induction false} RunIff(forms: Forms, identity: Identity, changes: seq<Change>)
    requires Accepted(forms, identity)
    ensures Run(forms, identity, changes).Some? <==> Permitted(forms, identity.status, changes)
    ensures Run(forms, identity, changes).Some? ==>
              Accepted(forms, Run(forms, identity, changes).value) &&
              Run(forms, identity, changes).value.status == (if changes == [] then identity.status else changes[|changes| - 1].to)
    decreases |changes|
  {
    hide Accepted;
    if changes != [] {
      RunFirst(forms, identity, changes);
      TransitionIff(forms, identity, changes[0].to, changes[0].at);
      var first := Transition(forms, identity, changes[0].to, changes[0].at);
      if first.Some? {
        RunIff(forms, first.value, changes[1..]);
      }
    }
  }

  /** Along a run revokedAt is set exactly when the status is revoked, and nothing follows a revocation. */
  lemma RevokedIsFinal(forms: Forms, identity: Identity, changes: seq<Change>)
    requires Accepted(forms, identity) && Run(forms, identity, changes).Some?
    ensures var last := Run(forms, identity, changes).value;
            (last.revokedAt.Some? <==> last.status == Revoked) &&
            forall k :: 0 <= k < |changes| - 1 ==> changes[k].to != Revoked
  {
    RunIff(forms, identity, changes);
    PermittedFinal(forms, identity.status, changes);
  }

  lemma {:induction false} PermittedFinal(forms: Forms, from: Status, changes: seq<Change>)
    requires Permitted(forms, from, changes)
    ensures from == Revoked ==> changes == []
    ensures forall k :: 0 <= k < |changes| - 1 ==> changes[k].to != Revoked
    decreases |changes|
  {
    if changes != [] {
      PermittedFinal(forms, changes[0].to, changes[1..]);
    }
  }

  // The status before change k of a run.
  function StatusBefore(from: Status, changes: seq<Change>, k: nat): Status
    requires k <= |changes|
  {
    if k == 0 then from else changes[k - 1].to
  }

  // Change k starts or completes a rotation.
  predicate Rotates(from: Status, changes: seq<Change>, k: nat)
    requires k < |changes|
  {
    changes[k].to == Rotating || (StatusBefore(from, changes, k) == Rotating && changes[k].to == Active)
  }

  // Change k is the last rotation of a run, or there is none and k is -1.
  predicate LastRotation(from: Status, changes: seq<Change>, k: int) {
    -1 <= k < |changes| && (k >= 0 ==> Rotates(from, changes, k)) &&
    forall j :: k < j < |changes| ==> !Rotates(from, changes, j)
  }

  /** rotatedAt is the time of the last change that started or completed a rotation, revokedAt that of the revocation. */
  lemma {:induction false} RunStamps(forms: Forms, identity: Identity, changes: seq<Change>, k: int)
    requires Accepted(forms, identity) && Run(forms, identity, changes).Some? && LastRotation(identity.status, changes, k)
    ensures var last := Run(forms, identity, changes).value;
            && last.rotatedAt == (if k >= 0 then Some(changes[k].at) else identity.rotatedAt)
            && (changes != [] && last.status == Revoked ==> last.revokedAt == Some(changes[|changes| - 1].at))
    decreases |changes|
  {
    hide Accepted;
    if changes != [] {
      var n := |changes| - 1;
      RunIff(forms, identity, changes[..n]);
      if k < n {
        assert !Rotates(identity.status, changes, n);
        EarlierRotation(identity.status, changes, k);
        RunStamps(forms, identity, changes[..n], k);
      }
    }
  }

  lemma EarlierRotation(from: Status, changes: seq<Change>, k: int)
    requires changes != [] && LastRotation(from, changes, k) && k < |changes| - 1
    ensures LastRotation(from, changes[..|changes| - 1], k)
  {
    var init := changes[..|changes| - 1];
    forall j | 0 <= j < |init| ensures Rotates(from, init, j) == Rotates(from, changes, j) {
      assert init[j] == changes[j] && (j > 0 ==> init[j - 1] == changes[j - 1]);
    }
  }

  /** An accepted identity has a scope in effect, and only such: the organization, or exactly its repositories. */
  lemma EffectiveIff(forms: Forms, identity: Identity)
    ensures EffectiveScope(forms, identity).Some? <==> Accepted(forms, identity)
    ensures EffectiveScope(forms, identity).Some? ==>
              var scope := EffectiveScope(forms, identity).value;
              && (scope.Organization? <==> identity.scope == Some(Organization))
              && (scope.Repositories? ==> forall id :: id in scope.ids <==> id in identity.repositoryIds)
  {
    hide KeysAccepted, StampsAccepted, Normalize, Positive, ScopeAccepted;
    ScopeAcceptedIff(identity);
    NormalizeSet(identity.repositoryIds, []);
  }

  /** A runner matches exactly its installation, its workflow where one is asked for, and the repositories of its scope. */
  lemma MatchesIff(forms: Forms, identity: Identity, installationId: int, repositoryId: int, workflowRef: Option<Text>)
    ensures MatchesScope(forms, identity, installationId, repositoryId, workflowRef)
            == if !Accepted(forms, identity) || installationId <= 0 || repositoryId <= 0 then None
               else Some(
                 && identity.installationId == installationId
                 && (workflowRef.None? || workflowRef.value == identity.workflowRef)
                 && (identity.scope == Some(Organization) || repositoryId in identity.repositoryIds))
  {
    hide Normalize, ScopeAccepted;
    ScopeAcceptedIff(identity);
    NormalizeSet(identity.repositoryIds, []);
  }

  /** A run never changes what the identity matches, nor any of its other fields. */
  lemma {:induction false} ScopeKept(forms: Forms, identity: Identity, changes: seq<Change>,
                                     installationId: int, repositoryId: int, workflowRef: Option<Text>)
    requires Accepted(forms, identity) && Run(forms, identity, changes).Some?
    ensures var last := Run(forms, identity, changes).value;
            MatchesScope(forms, last, installationId, repositoryId, workflowRef)
            == MatchesScope(forms, identity, installationId, repositoryId, workflowRef) &&
            last == identity.(status := last.status, rotatedAt := last.rotatedAt, revokedAt := last.revokedAt)
    decreases |changes|
  {
    hide Accepted;
    if changes != [] {
      RunFirst(forms, identity, changes);
      RunIff(forms, identity, changes[..1]);
      TransitionAccepted(forms, identity, changes[0].to, changes[0].at);
      var first := Transition(forms, identity, changes[0].to, changes[0].at).value;
      ScopeKept(forms, first, changes[1..], installationId, repositoryId, workflowRef);
    }
  }

  lemma TransitionAccepted(forms: Forms, identity: Identity, to: Status, changedAt: Text)
    requires Transition(forms, identity, to, changedAt).Some?
    ensures Accepted(forms, Transition(forms, identity, to, changedAt).value)
  {}
}

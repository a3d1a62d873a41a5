// What the health operations record and forget, and how long a record lasts: whether a request may use an
// auth, told from the operations that were performed (internal/codexonly/auth_health.go).

module AuthHealthRun {
  import opened Wrappers
  import opened AuthHealth

  /** Nothing is recorded or forgotten about any other auth. */
  ghost predicate OnlyAbout(s: Sys, s': Sys, id: AuthId) {
    forall other :: other != id ==> SameAt(s, s', other)
  }

  predicate SameAt(s: Sys, s': Sys, id: AuthId) {
    && Get(s'.states, id) == Get(s.states, id) && Get(s'.rows, id) == Get(s.rows, id)
    && Get(s'.exclusions, id) == Get(s.exclusions, id) && Get(s'.epochs, id) == Get(s.epochs, id)
  }

  // ----- marks -----

  /** A state that weak marks do not replace before its deadline. */
  predicate Strong(h: Health, now: int) {
    && (h.retryAt == 0 || now < h.retryAt)
    && (h.kind == InvalidGrant || h.kind == Unauthorized || h.kind == CredentialInvalid || (h.kind == Quota && h.authoritative))
  }

  /** The state is what was reported of the auth. */
  predicate Records(h: Health, auth: Auth, incoming: Health, now: int) {
    && h.kind == incoming.kind && h.retryAt == incoming.retryAt && h.authoritative == incoming.authoritative
    && h.statusCode == incoming.statusCode && h.updatedAt == now
    && h.reason == SafeText(incoming.reason) && h.errorCode == SafeCode(incoming.errorCode)
    && (h.kind == InvalidGrant || h.kind == Unauthorized || h.kind == CredentialInvalid ==> h.fingerprint == auth.fingerprint)
  }

  /**
   * A mark that the store takes is recorded, in memory and, if it has to survive a restart, in a row. Only a
   * weak one that meets a strong state is not. One that the store refuses changes nothing.
   */
  lemma MarkIsRecorded(s: Sys, now: int, auth: Auth, incoming: Health, ok: bool, s': Sys)
    requires Step(s, now, MarkUnavailableOp(auth, incoming), ok, s')
    ensures OnlyAbout(s, s', auth.id) && s'.exclusions == s.exclusions && s'.epochs == s.epochs
    ensures !ok ==> s' == s
    ensures ok ==>
      var weak := incoming.kind == Transient || incoming.kind == CredentialInvalid || (incoming.kind == Quota && !incoming.authoritative);
      if weak && auth.id in s.states && Strong(s.states[auth.id], now) then s' == s
      else
        && auth.id in s'.states && Records(s'.states[auth.id], auth, incoming, now)
        && (auth.id in s'.rows <==>
              incoming.kind == InvalidGrant || incoming.kind == Unauthorized ||
              (incoming.kind == Quota && incoming.authoritative && incoming.retryAt != 0))
        && (auth.id in s'.rows ==> RowSays(s'.rows[auth.id], s'.states[auth.id]))
  {
  }

  /** How often the auth has become healthy or got new credentials. */
  function Epoch(s: Sys, id: AuthId): nat {
    if id in s.epochs then s.epochs[id] else 0
  }

  predicate RowSays(row: Row, h: Health) {
    && row.kind == h.kind && row.retryAt == h.retryAt && row.fingerprint == h.fingerprint
    && row.statusCode == h.statusCode && row.updatedAt == h.updatedAt
  }

  /** From then on the auth is blocked for every model, until the deadline if there is one. */
  lemma MarkedIsBlocked(s: Sys, now: int, auth: Auth, incoming: Health, s': Sys, model: string)
    requires Step(s, now, MarkUnavailableOp(auth, incoming), true, s')
    requires incoming.retryAt == 0 || now < incoming.retryAt
    ensures Blocked(s', now, auth.id, model).Some?
  {
    MarkIsRecorded(s, now, auth, incoming, true, s');
  }

  /** What blocks an auth: an exclusion of the model, or else a state whose deadline has not passed. */
  lemma BlocksIff(s: Sys, now: int, id: AuthId, model: string)
    ensures var excluded :=
        id in s.exclusions && NormalizedModel(model).Some? && NormalizedModel(model).value in s.exclusions[id];
      && (Blocked(s, now, id, model).Some? <==>
            excluded || (id in s.states && (s.states[id].retryAt == 0 || now < s.states[id].retryAt)))
      && (Blocked(s, now, id, model).Some? && !excluded ==> Blocked(s, now, id, model) == Some(s.states[id]))
      && (excluded ==> Blocked(s, now, id, model).value.kind == ModelUnsupported)
  {
  }

  /** One exclusion is added, for which at most one makes room: an oldest one, when there is no room. */
  predicate MakesRoom(held: map<Model, Exclusion>, holds: map<Model, Exclusion>, m: Model) {
    && m in holds && (forall other :: other in holds && other != m ==> other in held && holds[other] == held[other])
    && (|held| < MAX_EXCLUSIONS ==> held.Keys <= holds.Keys)
    && (forall a, b :: a in held && b in held && a !in holds && b !in holds ==> a == b)
    && (forall a, b :: a in held && a !in holds && b in held ==> held[a].updatedAt <= held[b].updatedAt)
  }

  lemma ExcludesMakesRoom(s: Sys, s': Sys, now: int, auth: Auth, m: Model, statusCode: int, errorCode: string)
    requires Excludes(s, s', now, auth, m, statusCode, errorCode)
    ensures var held := if auth.id in s.exclusions then s.exclusions[auth.id] else map[];
      auth.id in s'.exclusions && MakesRoom(held, s'.exclusions[auth.id], m)
  {
    var held := if auth.id in s.exclusions then s.exclusions[auth.id] else map[];
    var holds := s'.exclusions[auth.id];
    if m !in held && |held| >= MAX_EXCLUSIONS {
      var oldest :| IsOldest(held, oldest) && holds == (held - {oldest})[m := holds[m]];
      assert forall a :: a in held && a !in holds ==> a == oldest;
    }
  }

  lemma ExcludedIsBlocked(s: Sys, now: int, id: AuthId, model: string)
    requires NormalizedModel(model).Some? && id in s.exclusions && NormalizedModel(model).value in s.exclusions[id]
    ensures Blocked(s, now, id, model).Some? && Blocked(s, now, id, model).value.kind == ModelUnsupported
  {
  }

  lemma ExcludesIsOnlyAbout(s: Sys, s': Sys, now: int, auth: Auth, m: Model, statusCode: int, errorCode: string)
    requires Excludes(s, s', now, auth, m, statusCode, errorCode)
    ensures OnlyAbout(s, s', auth.id)
  {
    HealedIsOnlyAbout(s, now, auth.id, "");
    var healed := Healed(s, now, auth.id, "");
    forall other | other != auth.id
      ensures SameAt(s, s', other)
    {
      assert SameAt(s, healed, other);
    }
  }

  /** An exclusion blocks its model; of the models excluded before at most one makes room for it. */
  lemma ExclusionBlocksModel(
    s: Sys, now: int, auth: Auth, model: string, statusCode: int, errorCode: string, s': Sys)
    requires Step(s, now, MarkModelUnsupportedOp(auth, model, statusCode, errorCode), true, s')
    requires NormalizedModel(model).Some?
    ensures OnlyAbout(s, s', auth.id)
    ensures Blocked(s', now, auth.id, model).Some? && Blocked(s', now, auth.id, model).value.kind == ModelUnsupported
    ensures auth.id in s'.exclusions
    ensures var held := if auth.id in s.exclusions then s.exclusions[auth.id] else map[];
      MakesRoom(held, s'.exclusions[auth.id], NormalizedModel(model).value)
  {
    ExcludesIsOnlyAbout(s, s', now, auth, NormalizedModel(model).value, statusCode, errorCode);
    ExcludesMakesRoom(s, s', now, auth, NormalizedModel(model).value, statusCode, errorCode);
    ExcludedIsBlocked(s', now, auth.id, model);
  }

  // ----- what heals -----

  lemma ForgetIsOnlyAbout(s: Sys, id: AuthId)
    ensures OnlyAbout(s, Forget(s, id), id) && id !in Forget(s, id).states
    ensures Forget(s, id).exclusions == s.exclusions && Forget(s, id).epochs == s.epochs
  {
  }

  lemma HealedIsOnlyAbout(s: Sys, now: int, id: AuthId, model: string)
    ensures OnlyAbout(s, Healed(s, now, id, model), id)
  {
    ForgetIsOnlyAbout(s, id);
    var kept := if KeepsQuota(s, id, now) then s else Forget(s, id);
    forall other | other != id
      ensures SameAt(s, Healed(s, now, id, model), other)
    {
      assert SameAt(s, kept, other);
    }
  }

  lemma HealedLeavesOnlyQuota(s: Sys, now: int, id: AuthId, model: string)
    ensures var s' := Healed(s, now, id, model);
      && (id in s'.states <==>
            id in s.states && s.states[id].kind == Quota && s.states[id].authoritative && s.states[id].retryAt > now)
      && (id in s'.states ==> s'.states[id] == s.states[id])
      && (NormalizedModel(model).Some? && id in s'.exclusions ==> NormalizedModel(model).value !in s'.exclusions[id])
      && s'.epochs == s.epochs
  {
    ForgetIsOnlyAbout(s, id);
  }

  /** A successful MarkHealthy leaves only an authoritative quota before its deadline. */
  lemma HealthyLeavesOnlyQuota(s: Sys, now: int, auth: Auth, model: string, s': Sys)
    requires Step(s, now, MarkHealthyOp(auth, model), true, s')
    ensures OnlyAbout(s, s', auth.id)
    ensures auth.id in s'.states <==>
      auth.id in s.states && s.states[auth.id].kind == Quota && s.states[auth.id].authoritative && s.states[auth.id].retryAt > now
    ensures auth.id in s'.states ==> s'.states[auth.id] == s.states[auth.id]
    ensures NormalizedModel(model).Some? && auth.id in s'.exclusions ==> NormalizedModel(model).value !in s'.exclusions[auth.id]
    ensures Epoch(s', auth.id) == Epoch(s, auth.id) + 1
  {
    HealedIsOnlyAbout(s, now, auth.id, model);
    HealedLeavesOnlyQuota(s, now, auth.id, model);
    var healed := Healed(s, now, auth.id, model);
    forall other | other != auth.id
      ensures SameAt(s, s', other)
    {
      assert SameAt(s, healed, other);
    }
  }

  /** Working credentials clear a credential state and no other. */
  lemma CredentialHealthyClears(s: Sys, now: int, auth: Auth, s': Sys)
    requires Step(s, now, MarkCredentialHealthyOp(auth), true, s')
    ensures OnlyAbout(s, s', auth.id) && s'.exclusions == s.exclusions
    ensures auth.id in s'.states <==>
      && auth.id in s.states
      && s.states[auth.id].kind != InvalidGrant && s.states[auth.id].kind != Unauthorized
      && s.states[auth.id].kind != CredentialInvalid
    ensures auth.id in s'.states ==> s' == s
    ensures auth.id in s.states && auth.id !in s'.states ==> Epoch(s', auth.id) == Epoch(s, auth.id) + 1
  {
  }

  /** Clearing a cooldown clears a quota or transient state that has a deadline, and no other. */
  lemma ClearingClearsCooldown(s: Sys, now: int, auth: Auth, s': Sys)
    requires Step(s, now, ClearCooldownOp(auth), true, s')
    ensures OnlyAbout(s, s', auth.id) && s'.exclusions == s.exclusions
    ensures auth.id in s'.states <==>
      && auth.id in s.states
      && (s.states[auth.id].retryAt == 0 || (s.states[auth.id].kind != Quota && s.states[auth.id].kind != Transient))
    ensures auth.id in s'.states ==> s' == s
    ensures auth.id in s.states && auth.id !in s'.states ==> Epoch(s', auth.id) == Epoch(s, auth.id) + 1
  {
  }

  /** A prune that the store takes leaves exactly the states whose deadline has not passed. */
  lemma PruneLeavesUnexpired(s: Sys, now: int, s': Sys, id: AuthId)
    requires Step(s, now, PruneOp, true, s')
    ensures id in s'.states <==> id in s.states && (s.states[id].retryAt == 0 || now < s.states[id].retryAt)
    ensures id in s'.states ==> s'.states[id] == s.states[id]
    ensures s'.exclusions == s.exclusions && s'.epochs == s.epochs
  {
  }

  // ----- reconciling -----

  lemma {:induction false} ReconcilesShrink(s: Sys, changes: seq<Change>, auths: Auths, id: AuthId)
    ensures var s' := ReconciledAll(s, changes, auths);
      && (id in s'.states ==> id in s.states && s'.states[id] == s.states[id])
      && (id in s'.exclusions ==> id in s.exclusions)
  {
    if changes != [] {
      ReconcilesShrink(s, changes[..|changes| - 1], auths, id);
    }
  }

  /** A removed auth is forgotten. */
  lemma {:induction false} RemovedIsForgotten(s: Sys, changes: seq<Change>, auths: Auths, id: AuthId)
    requires Removed(id) in changes
    ensures id !in ReconciledAll(s, changes, auths).states && id !in ReconciledAll(s, changes, auths).exclusions
  {
    var init, last := changes[..|changes| - 1], changes[|changes| - 1];
    if Removed(id) in init {
      RemovedIsForgotten(s, init, auths, id);
    } else {
      assert last == Removed(id);
    }
  }

  /** A removal starts an auth's epochs over, and new credentials are one more epoch. */
  lemma ChangeMovesEpoch(s: Sys, change: Change, auths: Auths, id: AuthId)
    ensures Epoch(Reconciled(s, change, auths), id) ==
      if change == Removed(id) then 0
      else if change == Updated(id, true) && id in auths then Epoch(s, id) + 1
      else Epoch(s, id)
  {
    if change.id != id {
      ChangeIsOnlyAbout(s, change, auths);
      assert SameAt(s, Reconciled(s, change, auths), id);
      assert Get(Reconciled(s, change, auths).epochs, id) == Get(s.epochs, id);
    }
  }

  /** Nothing recorded of the auth is about credentials other than those it has now. */
  predicate IsCurrent(s: Sys, id: AuthId, fingerprint: string) {
    && (id in s.states && CredentialKind(s.states[id].kind) ==> s.states[id].fingerprint == fingerprint)
    && (id in s.exclusions ==> forall m :: m in s.exclusions[id] ==> s.exclusions[id][m].fingerprint == fingerprint)
  }

  lemma UpdateIsCurrent(s: Sys, id: AuthId, changed: bool, auths: Auths)
    requires id in auths
    ensures IsCurrent(Reconciled(s, Updated(id, changed), auths), id, auths[id])
  {
    ForgetIsOnlyAbout(s, id);
  }

  lemma ChangeKeepsCurrent(s: Sys, change: Change, auths: Auths, id: AuthId)
    requires id in auths && IsCurrent(s, id, auths[id])
    ensures IsCurrent(Reconciled(s, change, auths), id, auths[id])
  {
    if change.id == id && change.Updated? {
      UpdateIsCurrent(s, id, change.credentialsChanged, auths);
    } else if change.id == id {
    } else {
      ChangeIsOnlyAbout(s, change, auths);
      assert SameAt(s, Reconciled(s, change, auths), id);
    }
  }

  lemma ChangeIsOnlyAbout(s: Sys, change: Change, auths: Auths)
    ensures OnlyAbout(s, Reconciled(s, change, auths), change.id)
  {
    match change
    case Added(_) =>
    case Removed(id) => RemovalIsOnlyAbout(s, id, auths);
    case Updated(id, changed) => UpdateIsOnlyAbout(s, id, changed, auths);
  }

  lemma RemovalIsOnlyAbout(s: Sys, id: AuthId, auths: Auths)
    ensures OnlyAbout(s, Reconciled(s, Removed(id), auths), id)
  {
    ForgetIsOnlyAbout(s, id);
    forall other | other != id
      ensures SameAt(s, Reconciled(s, Removed(id), auths), other)
    {
      assert SameAt(s, Forget(s, id), other);
    }
  }

  lemma UpdateIsOnlyAbout(s: Sys, id: AuthId, changed: bool, auths: Auths)
    ensures OnlyAbout(s, Reconciled(s, Updated(id, changed), auths), id)
  {
    var s' := Reconciled(s, Updated(id, changed), auths);
    ForgetIsOnlyAbout(s, id);
    var kept := if s'.states == s.states && s'.rows == s.rows then s else Forget(s, id);
    assert s'.states == kept.states && s'.rows == kept.rows;
    forall other | other != id
      ensures SameAt(s, s', other)
    {
      assert SameAt(s, Forget(s, id), other);
    }
  }

  /** No state or exclusion outlives the credentials it is about. */
  lemma {:induction false} ChangedCredentialsAreForgiven(
    s: Sys, changes: seq<Change>, auths: Auths, id: AuthId, changed: bool)
    requires Updated(id, changed) in changes && id in auths
    ensures IsCurrent(ReconciledAll(s, changes, auths), id, auths[id])
  {
    var init, last := changes[..|changes| - 1], changes[|changes| - 1];
    if Updated(id, changed) in init {
      ChangedCredentialsAreForgiven(s, init, auths, id, changed);
      ChangeKeepsCurrent(ReconciledAll(s, init, auths), last, auths, id);
    } else {
      assert last == Updated(id, changed);
      UpdateIsCurrent(ReconciledAll(s, init, auths), id, changed, auths);
    }
  }

  /** Auths that no change is about are as they were. */
  lemma {:induction false} UnchangedAuthsStay(s: Sys, changes: seq<Change>, auths: Auths, id: AuthId)
    requires forall c :: c in changes ==> c.id != id
    ensures SameAt(s, ReconciledAll(s, changes, auths), id)
  {
    if changes != [] {
      var init, last := changes[..|changes| - 1], changes[|changes| - 1];
      assert last in changes;
      UnchangedAuthsStay(s, init, auths, id);
      var mid := ReconciledAll(s, init, auths);
      ChangeIsOnlyAbout(mid, last, auths);
      assert SameAt(mid, Reconciled(mid, last, auths), id);
    }
  }

  /** A reconciliation that the store takes has gone through all changes, and has dropped what is past its deadline. */
  lemma ReconcileGoesThrough(s: Sys, now: int, changes: seq<Change>, auths: Auths, s': Sys, id: AuthId, changed: bool)
    requires Step(s, now, ReconcileOp(changes, auths), true, s')
    ensures Removed(id) in changes ==> id !in s'.states && id !in s'.exclusions
    ensures Updated(id, changed) in changes && id in auths ==> IsCurrent(s', id, auths[id])
    ensures id in s'.states ==> s'.states[id].retryAt == 0 || now < s'.states[id].retryAt
  {
    var all := ReconciledAll(s, changes, auths);
    assert Prunes(all, s', now, true);
    if Removed(id) in changes {
      RemovedIsForgotten(s, changes, auths, id);
    }
    if Updated(id, changed) in changes && id in auths {
      ChangedCredentialsAreForgiven(s, changes, auths, id, changed);
    }
  }

  // ----- how long a state lasts -----

  /** The operations that may replace or forget the state `h` of an auth. */
  predicate MayEnd(op: Op, now: int, id: AuthId, h: Health) {
    match op
    case MarkUnavailableOp(auth, _) => auth.id == id
    case MarkHealthyOp(auth, _) => auth.id == id
    case MarkCredentialHealthyOp(auth) => auth.id == id && CredentialKind(h.kind)
    case MarkModelUnsupportedOp(auth, _, _, _) => auth.id == id
    case ClearCooldownOp(auth) => auth.id == id && (h.kind == Quota || h.kind == Transient) && h.retryAt != 0
    case PruneOp => Expired(h, now)
    case ReconcileOp(changes, auths) =>
      Expired(h, now) || exists c :: c in changes && c.id == id && (c.Removed? || (c.Updated? && CredentialKind(h.kind)))
    case RestartOp(_) => true
  }

  ghost predicate Has(s: Sys, id: AuthId, h: Health) {
    id in s.states && s.states[id] == h
  }

  lemma {:induction false} ReconcilesKeep(s: Sys, changes: seq<Change>, auths: Auths, id: AuthId, h: Health)
    requires Has(s, id, h)
    requires forall c :: c in changes && c.id == id ==> !c.Removed? && (c.Updated? ==> !CredentialKind(h.kind))
    ensures Has(ReconciledAll(s, changes, auths), id, h)
  {
    if changes != [] {
      var init, last := changes[..|changes| - 1], changes[|changes| - 1];
      assert last in changes && forall c :: c in init ==> c in changes;
      ReconcilesKeep(s, init, auths, id, h);
    }
  }

  lemma PrunesKeep(s: Sys, s': Sys, now: int, ok: bool, id: AuthId, h: Health)
    requires Has(s, id, h) && !Expired(h, now) && Prunes(s, s', now, ok)
    ensures Has(s', id, h)
  {
  }

  lemma ReconcileOpKeeps(
    s: Sys, s': Sys, now: int, changes: seq<Change>, auths: Auths, ok: bool, id: AuthId, h: Health)
    requires Reconciles(s, s', now, changes, auths, ok) && Has(s, id, h) && !Expired(h, now)
    requires forall c :: c in changes && c.id == id ==> !c.Removed? && (c.Updated? ==> !CredentialKind(h.kind))
    ensures Has(s', id, h)
  {
    if Prunes(ReconciledAll(s, changes, auths), s', now, ok) {
      ReconcilesKeep(s, changes, auths, id, h);
      PrunesKeep(ReconciledAll(s, changes, auths), s', now, ok, id, h);
    } else {
      var k :| 0 <= k < |changes| && s' == ReconciledAll(s, changes[..k], auths);
      assert forall c :: c in changes[..k] ==> c in changes;
      ReconcilesKeep(s, changes[..k], auths, id, h);
    }
  }

  /** What an operation on another auth leaves alone. */
  lemma OthersKeep(s: Sys, s': Sys, other: AuthId, id: AuthId, h: Health)
    requires Has(s, id, h) && OnlyAbout(s, s', other) && other != id
    ensures Has(s', id, h)
  {
    assert SameAt(s, s', id);
    assert Get(s'.states, id) == Some(h);
  }

  lemma StepKeepsState(s: Sys, now: int, op: Op, ok: bool, s': Sys, id: AuthId, h: Health)
    requires Step(s, now, op, ok, s') && Has(s, id, h) && !MayEnd(op, now, id, h)
    ensures Has(s', id, h)
  {
    match op
    case MarkUnavailableOp(auth, incoming) =>
      MarkIsRecorded(s, now, auth, incoming, ok, s');
      OthersKeep(s, s', auth.id, id, h);
    case MarkHealthyOp(auth, model) =>
      if ok {
        HealthyLeavesOnlyQuota(s, now, auth, model, s');
        OthersKeep(s, s', auth.id, id, h);
      }
    case MarkModelUnsupportedOp(auth, model, statusCode, errorCode) =>
      if ok && NormalizedModel(model).Some? {
        ExclusionBlocksModel(s, now, auth, model, statusCode, errorCode, s');
        OthersKeep(s, s', auth.id, id, h);
      }
    case MarkCredentialHealthyOp(auth) => ForgetIsOnlyAbout(s, auth.id);
    case ClearCooldownOp(auth) => ForgetIsOnlyAbout(s, auth.id);
    case PruneOp => PrunesKeep(s, s', now, ok, id, h);
    case ReconcileOp(changes, auths) => ReconcileOpKeeps(s, s', now, changes, auths, ok, id, h);
    case RestartOp(_) =>
  }

  /** A recorded state stays until one of those operations, over runs of any length. */
  lemma {:induction false} StateLasts(trace: seq<Sys>, events: seq<Event>, i: nat, id: AuthId, h: Health)
    requires IsRun(trace, events) && i < |trace| && Has(trace[0], id, h)
    requires forall j :: 0 <= j < i ==> !MayEnd(events[j].op, events[j].now, id, h)
    ensures Has(trace[i], id, h)
  {
    if i > 0 {
      StateLasts(trace, events, i - 1, id, h);
      var e := events[i - 1];
      StepKeepsState(trace[i - 1], e.now, e.op, e.ok, trace[i], id, h);
    }
  }

  /** A marked auth is blocked, until its deadline, throughout a run that does nothing that may end its state. */
  lemma MarkedStaysBlocked(
    trace: seq<Sys>, events: seq<Event>, i: nat, auth: Auth, incoming: Health, model: string, now: int)
    requires IsRun(trace, events) && 0 < i < |trace| && events[0].op == MarkUnavailableOp(auth, incoming) && events[0].ok
    requires trace[1].states[auth.id].retryAt == 0 || now < trace[1].states[auth.id].retryAt
    requires forall j :: 0 < j < i ==> !MayEnd(events[j].op, events[j].now, auth.id, trace[1].states[auth.id])
    ensures Blocked(trace[i], now, auth.id, model).Some?
  {
    StateLasts(trace[1..], events[1..], i - 1, auth.id, trace[1].states[auth.id]);
  }
}

// authHealthRegistry and its durable table in the source's own form. Every store call may fail;
// each method is a step of the AuthHealth machine whatever the store answers.

module AuthHealthRegistry {
  import opened Wrappers
  import opened AuthHealth
  import GoText

  /** The auth_health_states table. A statement that fails leaves it unchanged. */
  class HealthStore {
    var rows: map<AuthId, Row>

    method Save(id: AuthId, h: Health) returns (ok: bool)
      modifies this
      ensures rows == if ok then old(rows)[id := RowOf(h)] else old(rows)
    {
      ok := *;
      if ok {
        rows := rows[id := RowOf(h)];
      }
    }

    method DeleteExcept(ids: set<AuthId>) returns (ok: bool)
      modifies this
      ensures rows == if ok then (map id | id in old(rows) && id in ids :: old(rows)[id]) else old(rows)
    {
      ok := *;
      if ok {
        rows := map id | id in rows && id in ids :: rows[id];
      }
    }

    method Delete(id: AuthId) returns (ok: bool)
      modifies this
      ensures rows == if ok then old(rows) - {id} else old(rows)
    {
      ok := *;
      if ok {
        rows := rows - {id};
      }
    }
  }

  class Registry {
    const store: HealthStore
    var states: map<AuthId, Health>
    var exclusions: map<AuthId, map<Model, Exclusion>>
    var epochs: map<AuthId, nat>

    ghost function Abs(): Sys
      reads this, store
    {
      Sys(states, exclusions, epochs, store.rows)
    }

    /** newAuthHealthRegistry: nothing in memory until Restore. */
    constructor (store: HealthStore)
      ensures this.store == store && Abs() == Sys(map[], map[], map[], store.rows)
    {
      this.store := store;
      states, exclusions, epochs := map[], map[], map[];
    }

    /** Restore: on success exactly the restorable rows remain, in the table and in memory. */
    method Restore(auths: Auths, now: int) returns (ok: bool)
      modifies this, store
      ensures ok ==> Step(old(Abs()), now, RestartOp(auths), true, Abs())
      ensures !ok ==> states == old(states) && exclusions == old(exclusions) && epochs == old(epochs)
      ensures !ok ==> forall id :: id in old(store.rows) && Restorable(id, old(store.rows)[id], auths, now) ==>
        id in store.rows && store.rows[id] == old(store.rows)[id]
      ensures !ok ==> forall id :: id in store.rows ==> id in old(store.rows) && store.rows[id] == old(store.rows)[id]
    {
      var deleted := store.DeleteExcept(auths.Keys);
      if !deleted {
        return false;
      }
      var loads: bool := *;
      if !loads {
        return false;
      }
      var restored;
      ok, restored := RestoreRows(auths, now);
      if !ok {
        return;
      }
      states, exclusions, epochs := restored, map[], map[];
      assert store.rows == Restarted(old(Abs()), now, auths).rows;
      assert states == Restarted(old(Abs()), now, auths).states;
    }

    /** The row loop of Restore: rows that may not come back are deleted, the others become states. */
    method RestoreRows(auths: Auths, now: int) returns (ok: bool, restored: map<AuthId, Health>)
      requires store.rows.Keys <= auths.Keys
      modifies store
      ensures forall id :: id in store.rows ==> id in old(store.rows) && store.rows[id] == old(store.rows)[id]
      ensures forall id :: id in old(store.rows) && Restorable(id, old(store.rows)[id], auths, now) ==> id in store.rows
      ensures ok ==> forall id :: id in store.rows ==> Restorable(id, store.rows[id], auths, now)
      ensures ok ==> restored.Keys == store.rows.Keys && forall id :: id in restored ==> restored[id] == HealthOf(store.rows[id])
    {
      var rows := store.rows;
      restored := map[];
      var rest := rows.Keys;
      while rest != {}
        invariant rest <= rows.Keys && rest !! restored.Keys
        invariant store.rows == map id | id in rows && (id in rest || id in restored) :: rows[id]
        invariant forall id :: id in rows && id !in rest && Restorable(id, rows[id], auths, now) ==> id in restored
        invariant forall id :: id in restored ==>
          id in rows && Restorable(id, rows[id], auths, now) && restored[id] == HealthOf(rows[id])
      {
        var id :| id in rest;
        var row := rows[id];
        var remove := (row.retryAt != 0 && row.retryAt <= now) ||
                      (CredentialKind(row.kind) && row.fingerprint != auths[id]);
        if remove {
          var deleted := store.Delete(id);
          if !deleted {
            return false, map[];
          }
        } else {
          restored := restored[id := HealthOf(row)];
        }
        rest := rest - {id};
      }
      ok := true;
    }

    method State(id: AuthId, model: string) returns (state: Option<Health>)
      ensures state == StateOf(Abs(), id, model)
    {
      var normalized := NormalizedModel(model);
      if normalized.Some? && id in exclusions && normalized.value in exclusions[id] {
        var e := exclusions[id][normalized.value];
        return Some(Health(ModelUnsupported, e.reason, 0, false, "", e.statusCode, e.errorCode, e.updatedAt));
      }
      return if id in states then Some(states[id]) else None;
    }

    method Blocked(auth: Auth, model: string, now: int) returns (state: Option<Health>)
      ensures state == AuthHealth.Blocked(Abs(), now, auth.id, model)
    {
      state := State(auth.id, model);
      if state.Some? && state.value.retryAt != 0 && state.value.retryAt <= now {
        state := None;
      }
    }

    method MarkUnavailable(auth: Auth, incoming: Health, now: int) returns (ok: bool)
      modifies this, store
      ensures Step(old(Abs()), now, MarkUnavailableOp(auth, incoming), ok, Abs())
    {
      var h := Sanitized(auth, incoming, now);
      if auth.id in states && Preserves(states[auth.id], h, now) {
        return true;
      }
      var persist := (h.kind.Quota? && h.authoritative && h.retryAt != 0) || h.kind.InvalidGrant? || h.kind.Unauthorized?;
      if persist {
        ok := store.Save(auth.id, h);
      } else {
        ok := store.Delete(auth.id);
      }
      if ok {
        states := states[auth.id := h];
      }
    }

    /** markHealthyLocked. */
    method MarkHealthyLocked(id: AuthId, model: string, now: int) returns (ok: bool)
      modifies this, store
      ensures if ok then Abs() == Healed(old(Abs()), now, id, model)
        else HealingDeletes(old(Abs()), now, id) && Abs() == old(Abs())
    {
      var hadState := id in states;
      var preserveQuota :=
        hadState && states[id].kind.Quota? && states[id].authoritative && states[id].retryAt > now;
      if hadState && !preserveQuota && PersistedKind(states[id].kind) {
        var deleted := store.Delete(id);
        if !deleted {
          return false;
        }
      }
      if !preserveQuota {
        states := states - {id};
      }
      assert old(states) - {id} == if hadState then old(states) - {id} else old(states);
      var normalized := NormalizedModel(model);
      if normalized.Some? && id in exclusions {
        var left := exclusions[id] - {normalized.value};
        exclusions := if left == map[] then exclusions - {id} else exclusions[id := left];
      }
      return true;
    }

    method MarkHealthy(auth: Auth, model: string, now: int) returns (ok: bool)
      modifies this, store
      ensures Step(old(Abs()), now, MarkHealthyOp(auth, model), ok, Abs())
    {
      ok := MarkHealthyLocked(auth.id, model, now);
      if ok {
        epochs := Bumped(epochs, auth.id);
      }
    }

    method MarkCredentialHealthy(auth: Auth, now: int) returns (ok: bool)
      modifies this, store
      ensures Step(old(Abs()), now, MarkCredentialHealthyOp(auth), ok, Abs())
    {
      if auth.id !in states || !CredentialKind(states[auth.id].kind) {
        return true;
      }
      if PersistedKind(states[auth.id].kind) {
        var deleted := store.Delete(auth.id);
        if !deleted {
          return false;
        }
      }
      states, epochs := states - {auth.id}, Bumped(epochs, auth.id);
      return true;
    }

    method MarkModelUnsupported(auth: Auth, model: string, statusCode: int, errorCode: string, now: int)
      returns (ok: bool)
      modifies this, store
      ensures Step(old(Abs()), now, MarkModelUnsupportedOp(auth, model, statusCode, errorCode), ok, Abs())
    {
      var normalized := NormalizedModel(model);
      if normalized.None? {
        return false;
      }
      var exclusion := Exclusion(auth.fingerprint, "model_not_supported", statusCode, errorCode, now);
      ok := MarkHealthyLocked(auth.id, "", now);
      if !ok {
        return;
      }
      assert NormalizedModel("").None?;
      var held := if auth.id in exclusions then exclusions[auth.id] else map[];
      if normalized.value !in held && |held| >= MAX_EXCLUSIONS {
        var oldest := OldestExclusion(held);
        held := held - {oldest};
      }
      exclusions := exclusions[auth.id := held[normalized.value := exclusion]];
    }

    method ClearCooldown(auth: Auth, now: int) returns (cleared: bool, ok: bool)
      modifies this, store
      ensures Step(old(Abs()), now, ClearCooldownOp(auth), ok, Abs())
      ensures cleared <==> ok && HasCooldown(old(Abs()), auth.id)
    {
      if auth.id !in states || states[auth.id].retryAt == 0
         || (!states[auth.id].kind.Quota? && !states[auth.id].kind.Transient?)
      {
        return false, true;
      }
      if PersistedKind(states[auth.id].kind) {
        var deleted := store.Delete(auth.id);
        if !deleted {
          return false, false;
        }
      }
      states, epochs := states - {auth.id}, Bumped(epochs, auth.id);
      return true, true;
    }

    /** pruneExpiredLocked, over the states in no particular order. */
    method PruneExpired(now: int) returns (ok: bool)
      modifies this, store
      ensures Step(old(Abs()), now, PruneOp, ok, Abs())
    {
      ghost var s := Abs();
      ghost var dropped: set<AuthId> := {};
      var rest := states.Keys;
      while rest != {}
        invariant rest <= s.states.Keys && dropped <= ExpiredIds(s, now) && dropped !! rest
        invariant forall id :: id in ExpiredIds(s, now) ==> id in dropped || id in rest
        invariant Abs() == Dropped(s, dropped)
      {
        var id :| id in rest;
        rest := rest - {id};
        var state := states[id];
        if state.retryAt == 0 || state.retryAt > now {
          continue;
        }
        if PersistedKind(state.kind) {
          var deleted := store.Delete(id);
          if !deleted {
            return false;
          }
        }
        states := states - {id};
        DroppedOneMore(s, dropped, id);
        dropped := dropped + {id};
      }
      assert dropped == ExpiredIds(s, now);
      return true;
    }

    /** Reconcile, change by change, then a prune. */
    method Reconcile(changes: seq<Change>, auths: Auths, now: int) returns (ok: bool)
      modifies this, store
      ensures Step(old(Abs()), now, ReconcileOp(changes, auths), ok, Abs())
    {
      for k := 0 to |changes|
        invariant Abs() == ReconciledAll(old(Abs()), changes[..k], auths)
      {
        assert changes[..k + 1][..k] == changes[..k];
        var applied := ReconcileChange(changes[k], auths);
        if !applied {
          return false;
        }
      }
      assert changes[..|changes|] == changes;
      ok := PruneExpired(now);
    }

    /** The body of the loop over the changes. */
    method ReconcileChange(change: Change, auths: Auths) returns (ok: bool)
      modifies this, store
      ensures Abs() == if ok then Reconciled(old(Abs()), change, auths) else old(Abs())
    {
      match change
      case Added(_) => return true;
      case Removed(id) =>
        ok := ForgetState(id);
        if ok {
          exclusions, epochs := exclusions - {id}, epochs - {id};
        }
      case Updated(id, credentialsChanged) =>
        if id !in auths {
          return true;
        }
        if id in states && CredentialKind(states[id].kind) && states[id].fingerprint != auths[id] {
          ok := ForgetState(id);
          if !ok {
            return;
          }
        }
        if id in exclusions {
          DropStaleExclusions(id, auths[id]);
        }
        if credentialsChanged {
          epochs := Bumped(epochs, id);
        }
        ok := true;
    }

    method DropStaleExclusions(id: AuthId, fingerprint: string)
      requires id in exclusions
      modifies this`exclusions
      ensures Abs() == FreshExclusions(old(Abs()), id, fingerprint)
    {
      if |exclusions[id]| > 0 {
        var held := exclusions[id];
        var left := map model | model in held && held[model].fingerprint == fingerprint :: held[model];
        exclusions := if left == map[] then exclusions - {id} else exclusions[id := left];
      } else {
        assert exclusions[id] == map[];
        assert exclusions[id := map[]] == exclusions;
      }
    }

    /** The delete that every branch above starts with. */
    method ForgetState(id: AuthId) returns (ok: bool)
      modifies this`states, store
      ensures Abs() == if ok then Forget(old(Abs()), id) else old(Abs())
    {
      if id in states && PersistedKind(states[id].kind) {
        var deleted := store.Delete(id);
        if !deleted {
          return false;
        }
      }
      assert id !in states ==> states - {id} == states;
      states := states - {id};
      return true;
    }
  }

  lemma DroppedOneMore(s: Sys, ids: set<AuthId>, id: AuthId)
    requires id in s.states && id !in ids
    ensures var before, after := Dropped(s, ids), Dropped(s, ids + {id});
      && after.states == before.states - {id}
      && after.rows == if PersistedKind(s.states[id].kind) then before.rows - {id} else before.rows
  {
  }

  /** oldestModelExclusion, over a map in no particular order. */
  method OldestExclusion(held: map<Model, Exclusion>) returns (oldest: Model)
    requires held != map[]
    ensures IsOldest(held, oldest)
  {
    assert held.Keys != {};
    oldest :| oldest in held.Keys;
    var rest := held.Keys - {oldest};
    while rest != {}
      invariant rest <= held.Keys && oldest in held && oldest !in rest
      invariant forall other :: other in held && other !in rest && other != oldest ==>
        held[oldest].updatedAt < held[other].updatedAt ||
        (held[oldest].updatedAt == held[other].updatedAt && GoText.Less(oldest, other))
    {
      var model :| model in rest;
      rest := rest - {model};
      if held[model].updatedAt < held[oldest].updatedAt
         || (held[model].updatedAt == held[oldest].updatedAt && GoText.Less(model, oldest))
      {
        forall other | other in held && other !in rest && other != model && other != oldest
          ensures held[model].updatedAt < held[other].updatedAt ||
                  (held[model].updatedAt == held[other].updatedAt && GoText.Less(model, other))
        {
          if held[model].updatedAt == held[oldest].updatedAt == held[other].updatedAt {
            GoText.LessIsTransitive(model, oldest, other);
          }
        }
        oldest := model;
      } else {
        GoText.LessIsTotal(model, oldest);
      }
    }
  }
}

// Choosing the auth for a request: eligibility, round robin, session affinity and the two rebinds
// of selectProxyAuthCandidate (internal/codexonly/server.go).

module Selection {
  import opened Wrappers
  import opened SessionAffinity
  import opened SessionAffinityStore
  import GoText

  datatype AuthSelection = AuthSelection(auth: AuthId, binding: Option<Binding>)

  datatype SelectError = NoEligibleAuth | StoreFailed(error: StoreError) | SessionUnavailable

  /** The auths a request may still use, in configuration order. */
  function Eligible(
    active: seq<AuthId>, allowed: Option<set<AuthId>>, tried: set<AuthId>, blocked: set<AuthId>): seq<AuthId>
  {
    if active == [] then []
    else
      var a := active[|active| - 1];
      Eligible(active[..|active| - 1], allowed, tried, blocked) +
        if (allowed.None? || a in allowed.value) && a !in tried && a !in blocked then [a] else []
  }

  lemma {:induction false} EligibleMeans(
    active: seq<AuthId>, allowed: Option<set<AuthId>>, tried: set<AuthId>, blocked: set<AuthId>, a: AuthId)
    ensures a in Eligible(active, allowed, tried, blocked) <==>
      a in active && (allowed.None? || a in allowed.value) && a !in tried && a !in blocked
  {
    if active != [] {
      EligibleMeans(active[..|active| - 1], allowed, tried, blocked, a);
      assert active == active[..|active| - 1] + [active[|active| - 1]];
    }
  }

  method ListEligible(
    active: seq<AuthId>, allowed: Option<set<AuthId>>, tried: set<AuthId>, blocked: set<AuthId>)
    returns (eligible: seq<AuthId>)
    ensures eligible == Eligible(active, allowed, tried, blocked)
  {
    eligible := [];
    for i := 0 to |active|
      invariant eligible == Eligible(active[..i], allowed, tried, blocked)
    {
      assert active[..i + 1][..i] == active[..i];
      var a := active[i];
      if allowed.Some? && a !in allowed.value {
        continue;
      }
      if a in tried {
        continue;
      }
      if a in blocked {
        continue;
      }
      eligible := eligible + [a];
    }
    assert active[..|active|] == active;
  }

  /** SessionAffinityBinding.valid. */
  function ValidBinding(b: Binding): bool {
    GoText.TrimSpace(b.auth) != "" && WellFormed(GoText.TrimSpace(b.binding)) && Normalized(b.digests) != []
  }

  /** A binding that the store returned: what Describes says of its digests, in any later table. */
  ghost predicate FromStore(b: Binding) {
    && b.binding in b.digests && IsAuthId(b.auth) && forall d :: d in b.digests ==> WellFormed(d)
  }

  lemma FromStoreIsNormal(b: Binding)
    requires FromStore(b)
    ensures AsSet(Normalized(b.digests)) == AsSet(b.digests) && Normalized(b.digests) != []
    ensures GoText.TrimSpace(b.binding) == b.binding && GoText.TrimSpace(b.auth) == b.auth && ValidBinding(b)
  {
    DigestsNormalize(b.digests);
    DigestIsTrimmed(b.binding);
    assert b.binding in Normalized(b.digests);
  }

  /** A binding from the store that speaks for all of a request's digests. */
  ghost predicate Carries(b: Binding, raw: seq<Digest>) {
    FromStore(b) && AsSet(Normalized(raw)) <= AsSet(b.digests)
  }

  /** All digests of `ds` are live and bound to `auth`. */
  ghost predicate SessionOn(t: Table, ds: set<Digest>, auth: AuthId, now: int) {
    forall d :: d in ds ==> d in t && Live(t[d], now) && t[d].auth == auth
  }

  /**
   * The auth that the second rebind comes back with is one the request may use exactly when the session
   * was by then unbound, still on the auth of the first rebind, or moved to an eligible auth.
   */
  ghost predicate SecondRebindStaysEligible(t: Table, b: Binding, eligible: seq<AuthId>, now: int) {
    var ds := AsSet(Normalized(b.digests));
    var w := Winner(t, Loaded(t, ds, {GoText.TrimSpace(b.binding)}), now);
    w.None? || t[w.value].auth == GoText.TrimSpace(b.auth) || t[w.value].auth in eligible
  }

  lemma RebindEligibleIff(t: Table, b: Binding, eligible: seq<AuthId>, candidate: AuthId, now: int)
    requires Normalized(b.digests) != [] && candidate in eligible
    ensures var ds := AsSet(Normalized(b.digests));
      && ds != {}
      && (var row := RebindRow(t, ds, GoText.TrimSpace(b.binding), b.tenant, GoText.TrimSpace(b.auth), candidate, now);
          row.auth in eligible <==> SecondRebindStaysEligible(t, b, eligible, now))
  {
    assert Normalized(b.digests)[0] in AsSet(Normalized(b.digests));
  }

  /** Nobody touched the table since the store returned the binding: rebinding it works. */
  lemma QuietRebindStaysEligible(t: Table, row: Row, b: Binding, eligible: seq<AuthId>, now: int)
    requires Inv(t, now) && FromStore(b) && Describes(b, t, row, AsSet(b.digests))
    ensures SecondRebindStaysEligible(t, b, eligible, now)
  {
    FromStoreIsNormal(b);
    var ds := AsSet(b.digests);
    var w := Winner(t, Loaded(t, ds, {b.binding}), now);
    if w.Some? {
      assert b.binding in ds && t[b.binding] == row;
      assert t[t[w.value].binding] == t[w.value];
      assert Bindings(t, ds) <= {row.binding};
    }
  }

  lemma DescribedIsFromStore(b: Binding, t: Table, row: Row, all: set<Digest>)
    requires RowsOk(t) && Describes(b, t, row, all)
    ensures FromStore(b) && AsSet(b.digests) == all
  {
    assert forall d :: d in b.digests ==> d in AsSet(b.digests) && d in t;
    assert b.binding in all;
  }

  /** A lookup of a bound session finds the auth it is on. */
  lemma LookupFindsAuth(t: Table, tenant: Digest, ds: set<Digest>, auth: AuthId, now: int)
    requires Inv(t, now) && Session(t, now, ds, auth)
    ensures FoundRow(t, ds, {}, now).Some? && FoundRow(t, ds, {}, now).value.auth == auth
    ensures RefreshRow(t, tenant, ds, now).Some? && RefreshRow(t, tenant, ds, now).value.auth == auth
  {
    OwnLoadWins(t, now, ds, auth, ds, {});
  }

  /** Looked up again a little later, a session whose row is still live is still on the same auth. */
  lemma LaterLookupFindsAuth(t: Table, tenant: Digest, ds: set<Digest>, now: int, later: int)
    requires ds != {} && now <= later && FoundRow(t, ds, {}, now).Some? && Live(FoundRow(t, ds, {}, now).value, later)
    ensures RefreshRow(t, tenant, ds, later).Some?
    ensures RefreshRow(t, tenant, ds, later).value.auth == FoundRow(t, ds, {}, now).value.auth
  {
    var keys := Loaded(t, ds, {});
    var w := Winner(t, keys, now).value;
    assert IsWinner(t, keys, later, w);
    WinnerExists(t, keys, later, w);
    WinnerIsUnique(t, keys, later, w, Winner(t, keys, later).value);
  }

  /** A session that had no live row has none later, if nobody touches the table. */
  lemma StaysUnbound(t: Table, ds: set<Digest>, now: int, later: int)
    requires FoundRow(t, ds, {}, now).None? && now <= later
    ensures FoundRow(t, ds, {}, later).None?
  {
    NoWinnerMeansNoneLive(t, Loaded(t, ds, {}), now);
  }

  /** What a lookup found is unmoved for as long as nobody touches the table. */
  lemma FoundIsUnmoved(b: Binding, t: Table, now: int)
    requires Inv(t, now) && b.binding in b.digests && NamesOneGroup(b, t)
    ensures Unmoved(t, b, now)
  {
    var ds := AsSet(b.digests);
    assert Bindings(t, ds) <= {b.binding};
    var w := Winner(t, Loaded(t, ds, {b.binding}), now);
    if w.Some? {
      assert t[t[w.value].binding] == t[w.value];
    }
  }

  /** The table holds one live digest, which is its own group, on `auth`. */
  ghost predicate AloneOn(t: Table, d: Digest, auth: AuthId, now: int) {
    Inv(t, now) && t.Keys == {d} && t[d].binding == d && t[d].auth == auth && Live(t[d], now)
  }

  ghost function Bound(t: Table, d: Digest, tenant: Digest, auth: AuthId, now: int): Table
    requires WellFormed(d) && IsAuthId(auth)
  {
    Apply(t, now, Bind(tenant, {d}, auth))
  }

  ghost function Rebound(t: Table, d: Digest, tenant: Digest, expected: AuthId, candidate: AuthId, now: int): Table
    requires WellFormed(d) && IsAuthId(candidate)
  {
    Apply(t, now, Rebind({d}, d, tenant, expected, candidate))
  }

  lemma BindAlone(d: Digest, tenant: Digest, auth: AuthId, now: int)
    requires now > 0 && WellFormed(d) && IsAuthId(auth)
    ensures AloneOn(Bound(map[], d, tenant, auth, now), d, auth, now)
  {
    ApplyKeepsInv(map[], now, Bind(tenant, {d}, auth));
    assert Rewritten(map[], {d}, {}) == {d};
  }

  lemma RebindAlone(t: Table, d: Digest, tenant: Digest, auth: AuthId, expected: AuthId, candidate: AuthId, now: int)
    requires AloneOn(t, d, auth, now) && now > 0 && WellFormed(d) && IsAuthId(candidate)
    ensures var row := RebindRow(t, {d}, d, tenant, expected, candidate, now);
      && row.auth == (if auth == expected then candidate else auth)
      && AloneOn(Rebound(t, d, tenant, expected, candidate, now), d, row.auth, now)
  {
    RebindKeepsInv(t, now, {d}, d, tenant, expected, candidate);
    WinnerExists(t, Loaded(t, {d}, {d}), now, d);
    assert Rewritten(t, {d}, {d}) == {d};
  }

  lemma AloneIsIneligible(t: Table, d: Digest, tenant: Digest, auth: AuthId, stale: AuthId, mine: AuthId, now: int)
    requires AloneOn(t, d, auth, now) && auth != stale && auth != mine && IsAuthId(stale)
    ensures !SecondRebindStaysEligible(t, Binding([d], d, tenant, stale), [mine], now)
  {
    DigestsNormalize([d]);
    DigestIsTrimmed(d);
    assert AsSet(Normalized([d])) == {d};
    assert GoText.TrimSpace(stale) == stale;
    WinnerExists(t, Loaded(t, {d}, {d}), now, d);
  }

  /**
   * An ineligible auth is reached from the empty table. The session is bound to `a`; this request may
   * only use `mine`; another request moves the session to `c` before this one's first rebind, which
   * comes back with `c`, and to `e` before the second, which comes back with `e`.
   */
  lemma InterferenceReachesIneligible(
    d: Digest, tenant: Digest, a: AuthId, c: AuthId, e: AuthId, mine: AuthId, now: int)
    requires now > 0 && WellFormed(d) && IsAuthId(a) && IsAuthId(c) && IsAuthId(e) && IsAuthId(mine)
    requires a != c && mine != c && mine != e && c != e
    ensures var t1 := Rebound(Bound(map[], d, tenant, a, now), d, tenant, a, c, now);
      var t3 := Rebound(Rebound(t1, d, tenant, a, mine, now), d, tenant, c, e, now);
      && RebindRow(t1, {d}, d, tenant, a, mine, now).auth == c
      && RebindRow(t3, {d}, d, tenant, c, mine, now).auth == e
      && Inv(t3, now) && !SecondRebindStaysEligible(t3, Binding([d], d, tenant, c), [mine], now)
  {
    var t0 := Bound(map[], d, tenant, a, now);
    BindAlone(d, tenant, a, now);
    RebindAlone(t0, d, tenant, a, a, c, now);
    var t1 := Rebound(t0, d, tenant, a, c, now);
    RebindAlone(t1, d, tenant, c, a, mine, now);
    var t2 := Rebound(t1, d, tenant, a, mine, now);
    RebindAlone(t2, d, tenant, c, c, e, now);
    var t3 := Rebound(t2, d, tenant, c, e, now);
    RebindAlone(t3, d, tenant, e, c, mine, now);
    AloneIsIneligible(t3, d, tenant, e, c, mine, now);
  }

  // ----- one selection -----

  /** When a selection reads, refreshes and twice rebinds, on the store's clock. */
  datatype Times = Times(read: int, refresh: int, first: int, second: int) {
    predicate Ordered() { 0 < read <= refresh <= first <= second }
  }

  /** Before which transactions no other request touches the table, and which of them commit. */
  datatype World = World(
    quietRefresh: bool, quietFirst: bool, quietSecond: bool,
    refreshCommits: bool, firstCommits: bool, secondCommits: bool)
  {
    predicate AllCommit() { refreshCommits && firstCommits && secondCommits }
  }

  /** The session is unbound or still on the auth that the binding names. */
  ghost predicate Unmoved(t: Table, b: Binding, now: int) {
    var found := FoundRow(t, AsSet(b.digests), {b.binding}, now);
    found.None? || found.value.auth == b.auth
  }

  /** The binding names its auth, speaks for all requested digests, and `auth` is that auth. */
  ghost predicate Selected(s: AuthSelection, raw: seq<Digest>) {
    s.binding.Some? && s.binding.value.auth == s.auth && Carries(s.binding.value, raw)
  }

  /** The auth that the session is on as the request first sees it. */
  ghost function SeenAuth(t: Table, ds: set<Digest>, carried: Option<Binding>, now: int): Option<AuthId> {
    if carried.Some? then Some(carried.value.auth)
    else match FoundRow(t, ds, {}, now)
      case None => None
      case Some(row) => Some(row.auth)
  }

  /** What the request has seen of its session holds until its first rebind. */
  ghost predicate SeenHolds(t: Table, ds: set<Digest>, carried: Option<Binding>, times: Times, world: World) {
    if carried.Some? then Unmoved(t, carried.value, times.first)
    else match FoundRow(t, ds, {}, times.read)
      case None => true
      case Some(row) => Live(row, times.refresh) && world.quietRefresh && world.refreshCommits
  }

  /** Selection fails for want of eligible auths, in the database, or with a session that others keep moving. */
  ghost predicate FailsOnlyFor(r: Result<AuthSelection, SelectError>, eligible: seq<AuthId>, world: World) {
    && (r == Failure(NoEligibleAuth) <==> eligible == [])
    && (r.Failure? && r.error.StoreFailed? ==> !world.AllCommit() && r.error.error == DatabaseError)
    && (r == Failure(SessionUnavailable) ==> !world.quietSecond)
  }

  /**
   * If the second rebind decided: an eligible auth was selected exactly under its condition, and the
   * session is unavailable exactly when others moved it to an auth that is not active.
   */
  ghost predicate SecondDecides(
    r: Result<AuthSelection, SelectError>, second: Option<(Table, Binding)>, eligible: seq<AuthId>,
    active: seq<AuthId>, now: int)
  {
    var unavailable := r == Failure(SessionUnavailable);
    && (unavailable ==> second.Some?)
    && (second.Some? && (r.Success? || unavailable) ==>
          var (t, b) := second.value;
          && (SecondRebindStaysEligible(t, b, eligible, now) <==> r.Success? && r.value.auth in eligible)
          && (unavailable <==>
                !Unmoved(t, b, now) && FoundRow(t, AsSet(b.digests), {b.binding}, now).value.auth !in active))
  }

  class Selector {
    const store: AffinityStore
    var next: nat

    constructor (store: AffinityStore)
      ensures this.store == store && next == 0
    {
      this.store, next := store, 0;
    }

    /** nextAuth: round robin. */
    method NextAuth(auths: seq<AuthId>) returns (auth: AuthId)
      requires auths != []
      modifies `next
      ensures auth == auths[old(next) % |auths|] && next == old(next) + 1
    {
      auth := auths[next % |auths|];
      next := next + 1;
    }

    /** The table as `to` finds it, after other requests unless it is quiet. */
    method Await(from: int, to: int, quiet: bool)
      requires 0 < from <= to && Inv(store.rows, from)
      modifies store
      ensures Inv(store.rows, to) && (quiet ==> store.rows == old(store.rows))
    {
      ApplyKeepsInv(store.rows, from, Tick(to - from));
      if !quiet {
        store.OtherTransactions(from, to);
      }
    }

    /** Rebind for a selection, together with what the rest of it needs to know. */
    method RebindTo(binding: Binding, candidate: AuthId, eligible: seq<AuthId>, now: int, commits: bool)
      returns (result: Result<Binding, StoreError>, ghost row: Row)
      requires now > 0 && Inv(store.rows, now) && FromStore(binding)
      requires candidate in eligible && IsAuthId(candidate)
      modifies store
      ensures Inv(store.rows, now)
      ensures if !commits then result == Failure(DatabaseError) && store.rows == old(store.rows)
        else
          && result.Success?
          && FromStore(result.value) && AsSet(binding.digests) <= AsSet(result.value.digests)
          && Describes(result.value, store.rows, row, AsSet(result.value.digests)) && Live(row, now)
          && (Unmoved(old(store.rows), binding, now) ==> result.value.auth == candidate)
          && (!Unmoved(old(store.rows), binding, now) ==>
                result.value.auth == FoundRow(old(store.rows), AsSet(binding.digests), {binding.binding}, now).value.auth)
          && (result.value.auth in eligible <==> SecondRebindStaysEligible(old(store.rows), binding, eligible, now))
    {
      FromStoreIsNormal(binding);
      RebindEligibleIff(store.rows, binding, eligible, candidate, now);
      ghost var ds := AsSet(binding.digests);
      row := RebindRow(store.rows, ds, binding.binding, binding.tenant, binding.auth, candidate, now);
      RebindWrites(store.rows, ds, binding.binding, binding.tenant, binding.auth, candidate, now);
      ghost var all := Rewritten(store.rows, ds, {binding.binding});
      result := store.Rebind(binding, candidate, now, commits);
      if result.Success? {
        DescribedIsFromStore(result.value, store.rows, row, all);
      }
    }

    /** The binding a request starts from: the one it carries, or what a lookup finds. */
    method FindBinding(tenant: Digest, raw: seq<Digest>, carried: Option<Binding>, times: Times, world: World)
      returns (binding: Result<Option<Binding>, StoreError>)
      requires times.Ordered() && Inv(store.rows, times.read) && Normalized(raw) != []
      requires carried.Some? ==> Carries(carried.value, raw)
      modifies store
      ensures Inv(store.rows, times.refresh)
      ensures binding.Failure? ==> binding == Failure(DatabaseError) && !world.refreshCommits
      ensures carried.Some? ==> binding == Success(carried) && store.rows == old(store.rows)
      ensures binding.Success? && binding.value.Some? ==>
        Carries(binding.value.value, raw) &&
        (carried.None? ==> SessionOn(store.rows, AsSet(Normalized(raw)), binding.value.value.auth, times.read))
      ensures carried.None? && binding.Success? && binding.value.Some? ==> NamesOneGroup(binding.value.value, store.rows)
      ensures carried.None? ==>
        match FoundRow(old(store.rows), AsSet(Normalized(raw)), {}, times.read)
        case None => binding == Success(None) && store.rows == old(store.rows)
        case Some(row) =>
          world.quietRefresh && Live(row, times.refresh) && binding.Success? ==>
            binding.value.Some? && binding.value.value.auth == row.auth
    {
      if carried.Some? {
        ApplyKeepsInv(store.rows, times.read, Tick(times.refresh - times.read));
        return Success(carried);
      }
      ghost var ds := AsSet(Normalized(raw));
      assert Normalized(raw)[0] in ds;
      ghost var row := FoundRow(store.rows, ds, {}, times.read);
      if row.Some? && Live(row.value, times.refresh) {
        LaterLookupFindsAuth(store.rows, tenant, ds, times.read, times.refresh);
      }
      ghost var found;
      binding, found := store.Lookup(tenant, raw, times.read, times.refresh, world.quietRefresh, world.refreshCommits);
    }

    /**
     * selectProxyAuthCandidate, after its reconcile and cleanup. `second` is the table that the second
     * rebind found, and the binding it rebinds, if it came to that.
     */
    method SelectCandidate(
      tenant: Digest, raw: seq<Digest>, active: seq<AuthId>, allowed: Option<set<AuthId>>, tried: set<AuthId>,
      blocked: set<AuthId>, carried: Option<Binding>, times: Times, world: World)
      returns (r: Result<AuthSelection, SelectError>, ghost second: Option<(Table, Binding)>)
      requires times.Ordered() && Inv(store.rows, times.read)
      requires forall a :: a in active ==> IsAuthId(a)
      requires carried.Some? ==> Carries(carried.value, raw)
      modifies `next, store
      ensures Inv(store.rows, times.second)
      ensures var eligible := Eligible(active, allowed, tried, blocked);
        && FailsOnlyFor(r, eligible, world) && SecondDecides(r, second, eligible, active, times.second)
        && (r.Success? ==> r.value.auth in active)
        && (r.Success? && (world.quietSecond || second.None?) ==> r.value.auth in eligible)
      ensures var eligible := Eligible(active, allowed, tried, blocked);
        Normalized(raw) == [] && eligible != [] ==>
          && r == Success(AuthSelection(eligible[old(next) % |eligible|], None))
          && store.rows == old(store.rows) && next == old(next) + 1
      ensures var eligible := Eligible(active, allowed, tried, blocked);
        var ds := AsSet(Normalized(raw));
        var seen := SeenAuth(old(store.rows), ds, carried, times.read);
        Normalized(raw) != [] && eligible != [] ==>
          && (r.Success? ==> Selected(r.value, raw))
          && (r.Success? && (carried.None? || carried.value.auth !in eligible) ==>
                SessionOn(store.rows, ds, r.value.auth, times.read))
          && (seen.Some? && seen.value in eligible &&
              (carried.Some? || SeenHolds(old(store.rows), ds, carried, times, world)) ==>
                r.Success? && r.value.auth == seen.value && next == old(next) &&
                (carried.Some? ==> r.value.binding == carried && store.rows == old(store.rows)))
          && ((seen.None? || seen.value !in eligible) && SeenHolds(old(store.rows), ds, carried, times, world) &&
              world.quietFirst && world.firstCommits ==>
                r.Success? && r.value.auth == eligible[old(next) % |eligible|])
    {
      second := None;
      ApplyKeepsInv(store.rows, times.read, Tick(times.second - times.read));
      var eligible := ListEligible(active, allowed, tried, blocked);
      forall a
        ensures a in eligible ==> a in active
      {
        EligibleMeans(active, allowed, tried, blocked, a);
      }
      if |eligible| == 0 {
        return Failure(NoEligibleAuth), None;
      }
      var digests := Normalize(raw);
      if |digests| == 0 {
        var auth := NextAuth(eligible);
        return Success(AuthSelection(auth, None)), None;
      }
      r, second := SelectSession(tenant, raw, eligible, active, carried, times, world);
    }

    /** The part of selectProxyAuthCandidate for a request that names a session. */
    method SelectSession(
      tenant: Digest, raw: seq<Digest>, eligible: seq<AuthId>, active: seq<AuthId>, carried: Option<Binding>,
      times: Times, world: World)
      returns (r: Result<AuthSelection, SelectError>, ghost second: Option<(Table, Binding)>)
      requires times.Ordered() && Inv(store.rows, times.read) && Normalized(raw) != []
      requires carried.Some? ==> Carries(carried.value, raw)
      requires eligible != [] && forall a :: a in eligible ==> a in active && IsAuthId(a)
      modifies `next, store
      ensures Inv(store.rows, times.second)
      ensures FailsOnlyFor(r, eligible, world) && SecondDecides(r, second, eligible, active, times.second)
      ensures r.Success? ==>
        && r.value.auth in active && (world.quietSecond || second.None? ==> r.value.auth in eligible)
        && Selected(r.value, raw)
        && (carried.None? || carried.value.auth !in eligible ==>
              SessionOn(store.rows, AsSet(Normalized(raw)), r.value.auth, times.read))
      ensures var ds := AsSet(Normalized(raw));
        var seen := SeenAuth(old(store.rows), ds, carried, times.read);
        && (seen.Some? && seen.value in eligible &&
            (carried.Some? || SeenHolds(old(store.rows), ds, carried, times, world)) ==>
              r.Success? && r.value.auth == seen.value && next == old(next) &&
              (carried.Some? ==> r.value.binding == carried && store.rows == old(store.rows)))
        && ((seen.None? || seen.value !in eligible) && SeenHolds(old(store.rows), ds, carried, times, world) &&
            world.quietFirst && world.firstCommits ==>
              r.Success? && r.value.auth == eligible[old(next) % |eligible|])
    {
      second := None;
      ghost var row := FoundRow(store.rows, AsSet(Normalized(raw)), {}, times.read);
      var found := FindBinding(tenant, raw, carried, times, world);
      ApplyKeepsInv(store.rows, times.refresh, Tick(times.second - times.refresh));
      if found.Failure? {
        return Failure(StoreFailed(found.error)), None;
      }
      var binding := found.value;
      if binding.Some? && binding.value.auth in eligible {
        return Success(AuthSelection(binding.value.auth, binding)), None;
      }
      if carried.None? && row.None? {
        StaysUnbound(store.rows, AsSet(Normalized(raw)), times.read, times.first);
      }
      if carried.None? && binding.Some? {
        ApplyKeepsInv(store.rows, times.refresh, Tick(times.first - times.refresh));
        FoundIsUnmoved(binding.value, store.rows, times.first);
      }
      r, second := MoveSession(tenant, raw, binding, eligible, active, times, world);
    }

    /** The half of selectProxyAuthCandidate that has to bind or rebind the session. */
    method MoveSession(
      tenant: Digest, raw: seq<Digest>, binding: Option<Binding>, eligible: seq<AuthId>, active: seq<AuthId>,
      times: Times, world: World)
      returns (r: Result<AuthSelection, SelectError>, ghost second: Option<(Table, Binding)>)
      requires times.Ordered() && Inv(store.rows, times.refresh) && Normalized(raw) != []
      requires binding.Some? ==> Carries(binding.value, raw)
      requires eligible != [] && forall a :: a in eligible ==> a in active && IsAuthId(a)
      modifies `next, store
      ensures Inv(store.rows, times.second)
      ensures r.Success? ==>
        && r.value.auth in active
        && (world.quietSecond || second.None? ==> r.value.auth in eligible)
        && Selected(r.value, raw) && SessionOn(store.rows, AsSet(Normalized(raw)), r.value.auth, times.first)
      ensures FailsOnlyFor(r, eligible, world)
      ensures SecondDecides(r, second, eligible, active, times.second)
      ensures
        || !world.quietFirst || !world.firstCommits
        || (binding.Some? && !Unmoved(old(store.rows), binding.value, times.first))
        || (binding.None? && FoundRow(old(store.rows), AsSet(Normalized(raw)), {}, times.first).Some?)
        || (r.Success? && r.value.auth == eligible[old(next) % |eligible|])
    {
      second := None;
      var candidate := NextAuth(eligible);
      var rebound, row := FirstAttempt(tenant, raw, binding, candidate, eligible, times, world);
      if rebound.Failure? {
        ApplyKeepsInv(store.rows, times.first, Tick(times.second - times.first));
        return Failure(StoreFailed(rebound.error)), None;
      }
      var now := rebound.value;
      if now.auth !in eligible {
        r, second := Retry(now, row, eligible, active, times, world);
        return;
      }
      ApplyKeepsInv(store.rows, times.first, Tick(times.second - times.first));
      return Success(AuthSelection(now.auth, Some(now))), None;
    }

    /** The first rebind or bind. An undisturbed session goes to the candidate. */
    method FirstAttempt(
      tenant: Digest, raw: seq<Digest>, binding: Option<Binding>, candidate: AuthId, eligible: seq<AuthId>,
      times: Times, world: World)
      returns (result: Result<Binding, StoreError>, ghost row: Row)
      requires times.Ordered() && Inv(store.rows, times.refresh) && Normalized(raw) != []
      requires binding.Some? ==> Carries(binding.value, raw)
      requires candidate in eligible && IsAuthId(candidate)
      modifies store
      ensures Inv(store.rows, times.first)
      ensures if !world.firstCommits then result == Failure(DatabaseError)
        else
          && result.Success?
          && FromStore(result.value) && AsSet(Normalized(raw)) <= AsSet(result.value.digests)
          && Describes(result.value, store.rows, row, AsSet(result.value.digests)) && Live(row, times.first)
      ensures
        || !world.quietFirst || !world.firstCommits
        || (binding.Some? && !Unmoved(old(store.rows), binding.value, times.first))
        || (binding.None? && FoundRow(old(store.rows), AsSet(Normalized(raw)), {}, times.first).Some?)
        || result.value.auth == candidate
    {
      Await(times.refresh, times.first, world.quietFirst);
      if binding.Some? {
        result, row := RebindTo(binding.value, candidate, eligible, times.first, world.firstCommits);
      } else {
        result, row := BindTo(tenant, raw, candidate, times.first, world.firstCommits);
      }
    }

    /** Bind for a selection whose session had no live row. */
    method BindTo(
      tenant: Digest, raw: seq<Digest>, candidate: AuthId, now: int, commits: bool)
      returns (result: Result<Binding, StoreError>, ghost row: Row)
      requires now > 0 && Inv(store.rows, now) && Normalized(raw) != []
      requires IsAuthId(candidate)
      modifies store
      ensures Inv(store.rows, now)
      ensures if !commits then result == Failure(DatabaseError) && store.rows == old(store.rows)
        else
          && result.Success?
          && FromStore(result.value) && AsSet(Normalized(raw)) <= AsSet(result.value.digests)
          && Describes(result.value, store.rows, row, AsSet(result.value.digests)) && Live(row, now)
          && result.value.auth == match FoundRow(old(store.rows), AsSet(Normalized(raw)), {}, now)
             case None => candidate
             case Some(found) => found.auth
    {
      ghost var ds := AsSet(Normalized(raw));
      assert Normalized(raw)[0] in ds;
      row := BindRow(store.rows, tenant, ds, candidate, now);
      BindWrites(store.rows, tenant, ds, candidate, now);
      ghost var all := Rewritten(store.rows, ds, {});
      result := store.Bind(tenant, raw, candidate, now, commits);
      if result.Success? {
        DescribedIsFromStore(result.value, store.rows, row, all);
      }
    }

    /** The second attempt: another request had moved the session to an auth this one may not use. */
    method Retry(
      binding: Binding, ghost row: Row, eligible: seq<AuthId>, active: seq<AuthId>, times: Times, world: World)
      returns (r: Result<AuthSelection, SelectError>, ghost second: Option<(Table, Binding)>)
      requires times.Ordered() && Inv(store.rows, times.first) && FromStore(binding)
      requires Describes(binding, store.rows, row, AsSet(binding.digests))
      requires eligible != [] && binding.auth !in eligible && forall a :: a in eligible ==> a in active && IsAuthId(a)
      modifies `next, store
      ensures Inv(store.rows, times.second) && second.Some?
      ensures !world.secondCommits <==> r == Failure(StoreFailed(DatabaseError))
      ensures r.Failure? ==> r == Failure(StoreFailed(DatabaseError)) || r == Failure(SessionUnavailable)
      ensures r == Failure(SessionUnavailable) ==> !world.quietSecond
      ensures SecondDecides(r, second, eligible, active, times.second)
      ensures r.Success? ==>
        && r.value.auth in active && (world.quietSecond ==> r.value.auth in eligible)
        && r.value.binding.Some? && r.value.binding.value.auth == r.value.auth && FromStore(r.value.binding.value)
        && AsSet(binding.digests) <= AsSet(r.value.binding.value.digests)
        && SessionOn(store.rows, AsSet(binding.digests), r.value.auth, times.second)
    {
      var candidate := NextAuth(eligible);
      if world.quietSecond {
        ApplyKeepsInv(store.rows, times.first, Tick(times.second - times.first));
        QuietRebindStaysEligible(store.rows, row, binding, eligible, times.second);
      }
      Await(times.first, times.second, world.quietSecond);
      second := Some((store.rows, binding));
      var rebound;
      ghost var row' := row;
      rebound, row' := RebindTo(binding, candidate, eligible, times.second, world.secondCommits);
      if rebound.Failure? {
        return Failure(StoreFailed(rebound.error)), second;
      }
      if rebound.value.auth !in active {
        return Failure(SessionUnavailable), second;
      }
      return Success(AuthSelection(rebound.value.auth, Some(rebound.value))), second;
    }
  }
}

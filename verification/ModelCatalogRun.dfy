// Runs of the model catalog: fetches in flight, retry cycles and stale results
// (internal/codexonly/models.go).

module ModelCatalogRun {
  import opened Wrappers
  import opened ModelCatalog

  datatype Event =
    | Request(version: Version, auths: seq<AuthId>, now: int, healthy: map<AuthId, nat>)
    | View(entry: Entry)
    | ForegroundResult(call: Call, result: Option<Models>)
    | Pause(call: Call, canceled: bool)
    | BackgroundResult(call: Call, result: Option<Models>, generation: nat)
    | Advance(clock: int)
    | Remove(auth: AuthId)
    | Close

  const BEGIN := State(map[], map[], [], map[], 0, 0, TTL, false)

  /**
   * One critical section. A request may have read the clock before it got the lock. Only the context of
   * an evicted entry or of a closed catalog is ever cancelled.
   */
  ghost predicate Step(s: State, e: Event, s': State) {
    match e
    case Request(v, auths, now, healthy) =>
      && LruOk(s) && TTL <= now <= s.clock
      && (OpenedHasEntry(s, v);
          s' == AskedAll(Opened(s, v), Opened(s, v).versions[v], auths, now, healthy))
    case View(entry) => s' == if Current(s, entry) then Used(s, entry) else s
    case ForegroundResult(c, result) => c in s.tasks && s.tasks[c].Foreground? && s' == ForegroundDone(s, c, result)
    case Pause(c, canceled) =>
      && c in s.tasks && s.tasks[c].Retrying? && !s.tasks[c].fetching
      && (canceled ==> s.closed || !Current(s, s.tasks[c].entry))
      && s' == Paused(s, c, canceled)
    case BackgroundResult(c, result, healthy) =>
      && c in s.tasks && s.tasks[c].Retrying? && s.tasks[c].fetching
      && s' == BackgroundDone(s, c, result, healthy)
    case Advance(clock) => s.clock <= clock && s' == s.(clock := clock)
    case Remove(auth) => s' == Removed(s, auth)
    case Close => s' == s.(closed := true)
  }

  lemma OpenedHasEntry(s: State, v: Version)
    requires LruOk(s)
    ensures var t := Opened(s, v); v in t.versions && t.versions[v] in t.entries && Current(t, t.versions[v])
  {
    OpenedKeepsLru(s, v);
    CachedMeans(Opened(s, v), v);
  }

  lemma OpenedIsInFront(s: State, v: Version)
    requires LruOk(s)
    ensures var t := Opened(s, v);
      && v in t.versions && Current(t, t.versions[v]) && t.entries[t.versions[v]].version == v
      && |t.lru| > 0 && t.lru[0] == t.versions[v]
  {
    OpenedKeepsLru(s, v);
    CachedMeans(Opened(s, v), v);
    assert Cached(Opened(s, v), v);
  }

  // ----- what holds of every cached entry -----

  /** A task on a cached entry is the one that the entry knows of. */
  ghost predicate TaskOk(s: State, c: Call)
    requires c in s.tasks
  {
    var e, a := s.tasks[c].entry, s.tasks[c].auth;
    && c < s.next && e in s.entries
    && (Current(s, e) ==> a in s.entries[e].auths && Matches(s.entries[e].auths[a], c, s.tasks[c], s.closed))
  }

  predicate Matches(st: AuthState, c: Call, task: Task, closed: bool) {
    match task
    case Foreground(_, _) => st.flight == Flight(Some(c), false) && (closed || st.past.fetches == 1)
    case Retrying(_, _, attempt, fetching) =>
      && st.flight == Flight(None, true) && 1 <= attempt <= BACKGROUND_RETRIES
      && (closed || st.past.fetches == attempt + if fetching then 1 else 0)
  }

  predicate SameTarget(s: State, c: Call, d: Call)
    requires c in s.tasks && d in s.tasks
  {
    s.tasks[c].entry == s.tasks[d].entry && s.tasks[c].auth == s.tasks[d].auth
  }

  predicate StateOk(s: State, e: Entry, a: AuthId)
    requires e in s.entries && a in s.entries[e].auths
  {
    var st := s.entries[e].auths[a];
    && (st.flight.foreground.Some? ==>
          st.flight.foreground.value in s.tasks && s.tasks[st.flight.foreground.value] == Foreground(e, a))
    && CycleOk(st, s.clock, s.closed)
  }

  /** The cycle and its history; a cycle is open while a fetch is due or has given up. */
  predicate CycleOk(st: AuthState, clock: int, closed: bool) {
    var idle := st.flight == Flight(None, false);
    && (if st.cycle.startedAt != 0 then st.past.began == st.cycle.startedAt else st.past.began <= st.snapshot.fetchedAt)
    && st.past.began <= clock
    && (st.cycle.exhausted || !idle ==> st.cycle.startedAt != 0)
    && (!closed ==> st.past.fetches <= 1 + BACKGROUND_RETRIES)
    && (!closed && idle && !st.cycle.exhausted ==> st.cycle.startedAt == 0)
  }

  ghost predicate FlightOk(s: State) {
    && TTL <= s.clock
    && (forall c :: c in s.tasks ==> TaskOk(s, c))
    && (forall c, d :: c in s.tasks && d in s.tasks && SameTarget(s, c, d) ==> c == d)
    && (forall e, a :: Tracks(s, e, a) ==> StateOk(s, e, a))
  }

  ghost predicate Inv(s: State) {
    LruOk(s) && FlightOk(s)
  }

  // ----- the version list -----

  /** The versions, their order and their entries are the same; only auth states and tasks may differ. */
  ghost predicate SameVersions(s: State, t: State) {
    && t.lru == s.lru && t.versions == s.versions && s.next <= t.next && t.uses == s.uses
    && t.entries.Keys == s.entries.Keys
    && forall e :: e in s.entries ==> t.entries[e] == s.entries[e].(auths := t.entries[e].auths)
  }

  lemma SameListIsOk(s: State, t: State)
    requires LruOk(s) && SameVersions(s, t)
    ensures LruOk(t)
  {
    forall e | e in t.entries
      ensures EntryOk(t, e)
    {
      assert EntryOk(s, e);
    }
    forall i | 0 <= i < |t.lru|
      ensures Current(t, t.lru[i])
    {
      assert Current(s, s.lru[i]);
    }
    forall i, j | 0 <= i < j < |t.lru|
      ensures UsedBefore(t, t.lru[j], t.lru[i])
    {
      assert UsedBefore(s, s.lru[j], s.lru[i]);
    }
    forall v | v in t.versions
      ensures Cached(t, v)
    {
      assert Cached(s, v);
    }
  }

  lemma PutKeepsVersions(s: State, e: Entry, a: AuthId, st: AuthState, t: State)
    requires e in s.entries && t == Put(s, e, a, st).(tasks := t.tasks, next := t.next) && s.next <= t.next
    ensures SameVersions(s, t)
  {
  }

  lemma {:induction false} AskedAllKeepsLru(
    s: State, e: Entry, auths: seq<AuthId>, now: int, healthy: map<AuthId, nat>)
    requires LruOk(s) && e in s.entries
    ensures var t := AskedAll(s, e, auths, now, healthy);
      LruOk(t) && t.versions == s.versions && t.lru == s.lru && (Current(s, e) ==> Current(t, e))
  {
    if |auths| > 0 {
      AskedAllKeepsLru(s, e, auths[..|auths| - 1], now, healthy);
      AskedKeepsLru(
        AskedAll(s, e, auths[..|auths| - 1], now, healthy), e, auths[|auths| - 1], now,
        Generation(healthy, auths[|auths| - 1]));
    }
  }

  lemma AskedKeepsLru(s: State, e: Entry, a: AuthId, now: int, healthy: nat)
    requires LruOk(s) && e in s.entries
    ensures var t := Asked(s, e, a, now, healthy);
      LruOk(t) && t.versions == s.versions && t.lru == s.lru && (Current(s, e) ==> Current(t, e))
  {
    var t := Asked(s, e, a, now, healthy);
    PutKeepsVersions(s, e, a, t.entries[e].auths[a], t);
    SameListIsOk(s, t);
  }

  lemma ForegroundKeepsVersions(s: State, c: Call, result: Option<Models>)
    requires c in s.tasks && s.tasks[c].Foreground?
    ensures SameVersions(s, ForegroundDone(s, c, result))
  {
    var e, a, t := s.tasks[c].entry, s.tasks[c].auth, ForegroundDone(s, c, result);
    if Tracks(s, e, a) && Get(s, e, a).flight.foreground == Some(c) {
      PutKeepsVersions(s, e, a, t.entries[e].auths[a], t);
    }
  }

  lemma PauseKeepsVersions(s: State, c: Call, canceled: bool)
    requires c in s.tasks && s.tasks[c].Retrying?
    ensures SameVersions(s, Paused(s, c, canceled))
  {
    var e, a, t := s.tasks[c].entry, s.tasks[c].auth, Paused(s, c, canceled);
    if canceled {
    } else if Tracks(s, e, a) {
      PutKeepsVersions(s, e, a, t.entries[e].auths[a], t);
    }
  }

  lemma BackgroundKeepsVersions(s: State, c: Call, result: Option<Models>, generation: nat)
    requires c in s.tasks && s.tasks[c].Retrying?
    ensures SameVersions(s, BackgroundDone(s, c, result, generation))
  {
    var e, a, t := s.tasks[c].entry, s.tasks[c].auth, BackgroundDone(s, c, result, generation);
    if result.Some? {
      if Tracks(s, e, a) {
        PutKeepsVersions(s, e, a, t.entries[e].auths[a], t);
      }
    } else if s.tasks[c].attempt >= BACKGROUND_RETRIES {
    }
  }

  lemma StepKeepsLru(s: State, e: Event, s': State)
    requires LruOk(s) && Step(s, e, s')
    ensures LruOk(s')
  {
    match e
    case Request(v, auths, now, healthy) =>
      OpenedKeepsLru(s, v);
      OpenedHasEntry(s, v);
      AskedAllKeepsLru(Opened(s, v), Opened(s, v).versions[v], auths, now, healthy);
    case View(entry) =>
      if Current(s, entry) {
        assert Cached(s, s.entries[entry].version);
        UsedKeepsLru(s, entry);
      }
    case ForegroundResult(c, result) =>
      ForegroundKeepsVersions(s, c, result);
      SameListIsOk(s, s');
    case Pause(c, canceled) =>
      PauseKeepsVersions(s, c, canceled);
      SameListIsOk(s, s');
    case BackgroundResult(c, result, generation) =>
      BackgroundKeepsVersions(s, c, result, generation);
      SameListIsOk(s, s');
    case Advance(_) => SameListIsOk(s, s');
    case Remove(_) => SameListIsOk(s, s');
    case Close => SameListIsOk(s, s');
  }

  // ----- the fetches -----

  /** From `s` to `t` only the state of auth `a` in entry `e` and the task `c` change. */
  ghost predicate Touches(s: State, t: State, e: Entry, a: AuthId, c: Call) {
    && SameVersions(s, t) && t.clock == s.clock && t.closed == s.closed
    && t.tasks - {c} == s.tasks - {c}
    && forall f :: f in s.entries ==>
      t.entries[f].auths - (if f == e then {a} else {}) == s.entries[f].auths - (if f == e then {a} else {})
  }

  /** No task but `c` is about auth `a` in entry `e`. */
  ghost predicate OnlyTask(s: State, e: Entry, a: AuthId, c: Call) {
    forall d :: d in s.tasks && s.tasks[d].entry == e && s.tasks[d].auth == a ==> d == c
  }

  lemma TouchedTask(s: State, t: State, e: Entry, a: AuthId, c: Call, d: Call)
    requires FlightOk(s) && Touches(s, t, e, a, c) && OnlyTask(s, e, a, c)
    requires d in t.tasks && d != c
    ensures TaskOk(t, d) && d in s.tasks && t.tasks[d] == s.tasks[d]
  {
    assert d in t.tasks - {c} && (t.tasks - {c})[d] == (s.tasks - {c})[d];
    assert TaskOk(s, d);
    var f, b := s.tasks[d].entry, s.tasks[d].auth;
    if Current(s, f) {
      var drop: set<AuthId> := if f == e then {a} else {};
      assert b in s.entries[f].auths - drop && (s.entries[f].auths - drop)[b] == (t.entries[f].auths - drop)[b];
    }
  }

  lemma TouchedState(s: State, t: State, e: Entry, a: AuthId, c: Call, f: Entry, b: AuthId)
    requires FlightOk(s) && Touches(s, t, e, a, c) && Tracks(t, f, b) && !(f == e && b == a)
    requires c in s.tasks ==> s.tasks[c].entry == e && s.tasks[c].auth == a
    ensures StateOk(t, f, b)
  {
    var drop: set<AuthId> := if f == e then {a} else {};
    assert b in t.entries[f].auths - drop && (t.entries[f].auths - drop)[b] == (s.entries[f].auths - drop)[b];
    assert Tracks(s, f, b) && StateOk(s, f, b);
    var call := s.entries[f].auths[b].flight.foreground;
    if call.Some? && call.value != c {
      assert call.value in s.tasks - {c} && (s.tasks - {c})[call.value] == (t.tasks - {c})[call.value];
    }
  }

  /** A step about one auth of one entry keeps the invariant if it does so there. */
  lemma TouchKeepsFlight(s: State, t: State, e: Entry, a: AuthId, c: Call)
    requires FlightOk(s) && Touches(s, t, e, a, c) && OnlyTask(s, e, a, c)
    requires c in s.tasks ==> s.tasks[c].entry == e && s.tasks[c].auth == a
    requires c in t.tasks ==> TaskOk(t, c) && t.tasks[c].entry == e && t.tasks[c].auth == a
    requires Tracks(t, e, a) ==> StateOk(t, e, a)
    ensures FlightOk(t)
  {
    forall d | d in t.tasks
      ensures TaskOk(t, d)
    {
      if d != c {
        TouchedTask(s, t, e, a, c, d);
      }
    }
    forall d, d' | d in t.tasks && d' in t.tasks && SameTarget(t, d, d')
      ensures d == d'
    {
      if d != c {
        TouchedTask(s, t, e, a, c, d);
      }
      if d' != c {
        TouchedTask(s, t, e, a, c, d');
      }
    }
    forall f, b | Tracks(t, f, b)
      ensures StateOk(t, f, b)
    {
      if f != e || b != a {
        TouchedState(s, t, e, a, c, f, b);
      }
    }
  }

  lemma PutTouches(s: State, e: Entry, a: AuthId, st: AuthState, c: Call, t: State)
    requires e in s.entries && t == Put(s, e, a, st).(tasks := t.tasks, next := t.next) && s.next <= t.next
    requires t.tasks - {c} == s.tasks - {c}
    ensures Touches(s, t, e, a, c)
  {
    PutKeepsVersions(s, e, a, st, t);
    assert s.entries[e].auths[a := st] - {a} == s.entries[e].auths - {a};
  }

  /** A request starts a fetch for an auth only if nothing is in flight for it. */
  lemma FetchStartsAlone(s: State, e: Entry, a: AuthId, now: int, healthy: nat)
    requires FlightOk(s) && Current(s, e) && Decide(Get(s, e, a), now, healthy).Fetch?
    ensures OnlyTask(s, e, a, s.next) && s.next !in s.tasks
  {
    forall d | d in s.tasks
      ensures d != s.next && (s.tasks[d].entry == e ==> s.tasks[d].auth != a)
    {
      assert TaskOk(s, d);
    }
  }

  lemma FetchKeepsFlight(s: State, e: Entry, a: AuthId, now: int, healthy: nat)
    requires Inv(s) && Current(s, e) && TTL <= now <= s.clock && Decide(Get(s, e, a), now, healthy).Fetch?
    ensures FlightOk(Asked(s, e, a, now, healthy))
  {
    var t, st := Asked(s, e, a, now, healthy), Get(s, e, a);
    if a in s.entries[e].auths {
      assert Tracks(s, e, a) && StateOk(s, e, a);
    }
    FetchStartsAlone(s, e, a, now, healthy);
    PutTouches(s, e, a, WithFetch(st, now, s.next), s.next, t);
    TouchKeepsFlight(s, t, e, a, s.next);
  }

  lemma AskedKeepsFlight(s: State, e: Entry, a: AuthId, now: int, healthy: nat)
    requires Inv(s) && Current(s, e) && TTL <= now <= s.clock
    ensures FlightOk(Asked(s, e, a, now, healthy))
  {
    var t, st := Asked(s, e, a, now, healthy), Get(s, e, a);
    if Decide(st, now, healthy).Fetch? {
      FetchKeepsFlight(s, e, a, now, healthy);
    } else if a !in s.entries[e].auths {
      PutTouches(s, e, a, st, s.next, t);
      TouchKeepsFlight(s, t, e, a, s.next);
    } else {
      assert s.entries[e].auths[a := st] == s.entries[e].auths;
      assert s.entries[e := s.entries[e]] == s.entries;
      assert t == s;
    }
  }

  lemma {:induction false} AskedAllKeepsFlight(
    s: State, e: Entry, auths: seq<AuthId>, now: int, healthy: map<AuthId, nat>)
    requires Inv(s) && Current(s, e) && TTL <= now <= s.clock
    ensures var t := AskedAll(s, e, auths, now, healthy);
      Inv(t) && Current(t, e) && t.clock == s.clock && t.versions == s.versions
  {
    if |auths| > 0 {
      var last := |auths| - 1;
      AskedAllKeepsFlight(s, e, auths[..last], now, healthy);
      var t := AskedAll(s, e, auths[..last], now, healthy);
      AskedKeepsLru(t, e, auths[last], now, Generation(healthy, auths[last]));
      AskedKeepsFlight(t, e, auths[last], now, Generation(healthy, auths[last]));
    }
  }

  /** Fewer cached entries and one new empty one: nothing to check again. */
  lemma OpenedKeepsFlight(s: State, v: Version)
    requires Inv(s)
    ensures FlightOk(Opened(s, v)) && Opened(s, v).clock == s.clock
  {
    var t := Opened(s, v);
    OpenedMeans(s, v);
    forall c | c in t.tasks
      ensures TaskOk(t, c)
    {
      assert TaskOk(s, c) && StillThere(s, t, s.tasks[c].entry);
    }
    forall e, a | Tracks(t, e, a)
      ensures StateOk(t, e, a)
    {
      assert StillThere(s, t, e);
      assert Tracks(s, e, a) && StateOk(s, e, a);
    }
    assert forall c, d :: c in t.tasks && d in t.tasks && SameTarget(t, c, d) ==> SameTarget(s, c, d);
  }

  /** `t` caches nothing of `s` anew; new entries know no auth yet. */
  ghost predicate FewerCached(s: State, t: State) {
    && t.tasks == s.tasks && s.next <= t.next && t.clock == s.clock && t.closed == s.closed
    && (forall e :: e in s.entries ==> StillThere(s, t, e))
    && (forall e :: e in t.entries && e !in s.entries ==> t.entries[e].auths == map[])
  }

  predicate StillThere(s: State, t: State, e: Entry)
    requires e in s.entries
  {
    e in t.entries && t.entries[e].auths == s.entries[e].auths && (Current(t, e) ==> Current(s, e))
  }

  lemma AddedMeans(s: State, v: Version)
    requires LruOk(s) && v !in s.versions
    ensures FewerCached(s, Added(s, v))
  {
    forall e | e in s.entries
      ensures StillThere(s, Added(s, v), e)
    {
      assert EntryOk(s, e);
    }
  }

  lemma OpenedMeans(s: State, v: Version)
    requires LruOk(s)
    ensures FewerCached(s, Opened(s, v))
  {
    if v in s.versions {
      CachedMeans(s, v);
    } else {
      OldestIsCached(s, v);
      AddedMeans(s, v);
      FewerAfterEviction(s, Added(s, v));
    }
  }

  lemma FewerAfterEviction(s: State, t: State)
    requires FewerCached(s, t) && |t.lru| > 0 && t.lru[|t.lru| - 1] in t.entries
    ensures FewerCached(s, EvictedOldest(t))
  {
    forall e | e in s.entries
      ensures StillThere(s, EvictedOldest(t), e)
    {
      assert StillThere(s, t, e);
    }
  }

  lemma ViewKeepsFlight(s: State, e: Entry)
    requires Inv(s) && Current(s, e)
    ensures FlightOk(Used(s, e))
  {
    var t := Used(s, e);
    forall c | c in t.tasks
      ensures TaskOk(t, c)
    {
      assert TaskOk(s, c);
    }
    forall f, a | Tracks(t, f, a)
      ensures StateOk(t, f, a)
    {
      assert Tracks(s, f, a) && StateOk(s, f, a);
    }
    assert forall c, d :: c in t.tasks && d in t.tasks && SameTarget(t, c, d) ==> SameTarget(s, c, d);
  }

  lemma TimeKeepsFlight(s: State, t: State)
    requires FlightOk(s) && t == s.(clock := t.clock, closed := t.closed) && s.clock <= t.clock && (s.closed ==> t.closed)
    ensures FlightOk(t)
  {
    forall c | c in t.tasks
      ensures TaskOk(t, c)
    {
      assert TaskOk(s, c);
    }
    forall f, a | Tracks(t, f, a)
      ensures StateOk(t, f, a)
    {
      assert Tracks(s, f, a) && StateOk(s, f, a);
    }
    assert forall c, d :: c in t.tasks && d in t.tasks && SameTarget(t, c, d) ==> SameTarget(s, c, d);
  }

  /** The only task of its target, in an entry that knows it if it is cached. */
  lemma TaskMeans(s: State, c: Call)
    requires FlightOk(s) && c in s.tasks
    ensures var e, a := s.tasks[c].entry, s.tasks[c].auth;
      && OnlyTask(s, e, a, c) && c < s.next && e in s.entries
      && (Current(s, e) ==> Tracks(s, e, a) && StateOk(s, e, a) && Matches(Get(s, e, a), c, s.tasks[c], s.closed))
  {
    var e, a := s.tasks[c].entry, s.tasks[c].auth;
    assert TaskOk(s, c);
    forall d | d in s.tasks && s.tasks[d].entry == e && s.tasks[d].auth == a
      ensures d == c
    {
      assert SameTarget(s, c, d);
    }
    if Current(s, e) {
      assert Tracks(s, e, a);
    }
  }

  /** A result for an entry that is no longer cached. */
  lemma DroppedKeepsFlight(s: State, c: Call, t: State)
    requires FlightOk(s) && c in s.tasks && !Current(s, s.tasks[c].entry)
    requires t == s.(tasks := t.tasks) && t.tasks - {c} == s.tasks - {c}
    requires c in t.tasks ==> t.tasks[c].entry == s.tasks[c].entry && t.tasks[c].auth == s.tasks[c].auth
    ensures FlightOk(t)
  {
    TaskMeans(s, c);
    TouchKeepsFlight(s, t, s.tasks[c].entry, s.tasks[c].auth, c);
  }

  lemma ForegroundKeepsFlight(s: State, c: Call, result: Option<Models>)
    requires FlightOk(s) && c in s.tasks && s.tasks[c].Foreground?
    ensures FlightOk(ForegroundDone(s, c, result))
  {
    var e, a, t := s.tasks[c].entry, s.tasks[c].auth, ForegroundDone(s, c, result);
    TaskMeans(s, c);
    if Current(s, e) {
      PutTouches(s, e, a, t.entries[e].auths[a], c, t);
      TouchKeepsFlight(s, t, e, a, c);
    } else {
      DroppedKeepsFlight(s, c, t);
    }
  }

  lemma PauseKeepsFlight(s: State, c: Call, canceled: bool)
    requires FlightOk(s) && c in s.tasks && s.tasks[c].Retrying? && !s.tasks[c].fetching
    requires canceled ==> s.closed || !Current(s, s.tasks[c].entry)
    ensures FlightOk(Paused(s, c, canceled))
  {
    var e, a, t := s.tasks[c].entry, s.tasks[c].auth, Paused(s, c, canceled);
    TaskMeans(s, c);
    if Current(s, e) {
      PutTouches(s, e, a, t.entries[e].auths[a], c, t);
      TouchKeepsFlight(s, t, e, a, c);
    } else {
      DroppedKeepsFlight(s, c, t);
    }
  }

  lemma BackgroundKeepsFlight(s: State, c: Call, result: Option<Models>, generation: nat)
    requires FlightOk(s) && c in s.tasks && s.tasks[c].Retrying? && s.tasks[c].fetching
    ensures FlightOk(BackgroundDone(s, c, result, generation))
  {
    var e, a, t := s.tasks[c].entry, s.tasks[c].auth, BackgroundDone(s, c, result, generation);
    TaskMeans(s, c);
    if !Current(s, e) {
      DroppedKeepsFlight(s, c, t);
    } else if result.None? && s.tasks[c].attempt < BACKGROUND_RETRIES {
      RetryTouches(s, e, a, c, t);
      TouchKeepsFlight(s, t, e, a, c);
    } else {
      PutTouches(s, e, a, t.entries[e].auths[a], c, t);
      TouchKeepsFlight(s, t, e, a, c);
    }
  }

  lemma RetryTouches(s: State, e: Entry, a: AuthId, c: Call, t: State)
    requires t == s.(tasks := t.tasks) && t.tasks - {c} == s.tasks - {c}
    ensures Touches(s, t, e, a, c)
  {
  }

  /** A fetch or a retry of the auth is under way for a cached entry. */
  ghost predicate Busy(s: State, a: AuthId) {
    exists c :: c in s.tasks && s.tasks[c].auth == a && Current(s, s.tasks[c].entry)
  }

  lemma QuietRemovalKeepsFlight(s: State, a: AuthId)
    requires FlightOk(s) && !Busy(s, a)
    ensures FlightOk(Removed(s, a))
  {
    var t := Removed(s, a);
    forall c | c in t.tasks
      ensures TaskOk(t, c)
    {
      assert TaskOk(s, c);
    }
    forall f, b | Tracks(t, f, b)
      ensures StateOk(t, f, b)
    {
      assert Tracks(s, f, b) && StateOk(s, f, b);
    }
    assert forall c, d :: c in t.tasks && d in t.tasks && SameTarget(t, c, d) ==> SameTarget(s, c, d);
  }

  /** Removing an auth keeps the invariant exactly when nothing is under way for it in a cached entry. */
  lemma RemovalKeepsInvIff(s: State, a: AuthId)
    requires Inv(s)
    ensures Inv(Removed(s, a)) <==> !Busy(s, a)
  {
    var t := Removed(s, a);
    if !Busy(s, a) {
      QuietRemovalKeepsFlight(s, a);
      SameListIsOk(s, t);
    } else {
      var c :| c in s.tasks && s.tasks[c].auth == a && Current(s, s.tasks[c].entry);
      assert Current(t, s.tasks[c].entry) && !TaskOk(t, c);
    }
  }

  /**
   * The converse for a run: after a removal that hits work under way, a request for the auth starts a
   * second fetch for the same auth of the same entry.
   */
  lemma BusyRemovalDoublesFetch(s: State, c: Call)
    requires Inv(s) && c in s.tasks && Current(s, s.tasks[c].entry)
    ensures
      var e, a := s.tasks[c].entry, s.tasks[c].auth;
      var removed, v := Removed(s, a), s.entries[e].version;
      var request := Request(v, [a], s.clock, map[]);
      Step(s, Remove(a), removed) && LruOk(removed) && removed.versions[v] == e &&
      var again := Asked(Opened(removed, v), e, a, s.clock, 0);
      && Step(removed, request, again)
      && c in again.tasks && s.next in again.tasks && c != s.next && SameTarget(again, c, s.next)
      && again.tasks == s.tasks[s.next := Foreground(e, a)] && again.clock == s.clock && Tracks(again, e, a)
      && Get(again, e, a).flight.foreground == Some(s.next)
  {
    var e, a := s.tasks[c].entry, s.tasks[c].auth;
    var removed, v := Removed(s, a), s.entries[e].version;
    SameListIsOk(s, removed);
    assert TaskOk(s, c) && Current(removed, e);
    OpenedHasEntry(removed, v);
    UnseenIsFetched(Opened(removed, v), e, a);
    AskedOne(Opened(removed, v), e, a, s.clock);
  }

  /** An auth of which an entry knows nothing is fetched at once. */
  lemma UnseenIsFetched(s: State, e: Entry, a: AuthId)
    requires Current(s, e) && a !in s.entries[e].auths && TTL <= s.clock
    ensures var t := Asked(s, e, a, s.clock, 0);
      && t.tasks == s.tasks[s.next := Foreground(e, a)] && t.clock == s.clock && Tracks(t, e, a)
      && Get(t, e, a).flight.foreground == Some(s.next)
  {
    assert Decide(UNSEEN, s.clock, 0).Fetch?;
  }

  lemma AskedOne(s: State, e: Entry, a: AuthId, now: int)
    requires e in s.entries
    ensures AskedAll(s, e, [a], now, map[]) == Asked(s, e, a, now, 0)
  {
    assert [a][..0] == [];
    assert AskedAll(s, e, [a][..0], now, map[]) == s;
  }

  lemma StepKeepsInv(s: State, e: Event, s': State)
    requires Inv(s) && Step(s, e, s') && (e.Remove? ==> !Busy(s, e.auth))
    ensures Inv(s')
  {
    StepKeepsLru(s, e, s');
    match e
    case Request(v, auths, now, healthy) =>
      OpenedKeepsLru(s, v);
      OpenedKeepsFlight(s, v);
      OpenedHasEntry(s, v);
      AskedAllKeepsFlight(Opened(s, v), Opened(s, v).versions[v], auths, now, healthy);
    case View(entry) =>
      if Current(s, entry) {
        ViewKeepsFlight(s, entry);
      }
    case ForegroundResult(c, result) => ForegroundKeepsFlight(s, c, result);
    case Pause(c, canceled) => PauseKeepsFlight(s, c, canceled);
    case BackgroundResult(c, result, generation) => BackgroundKeepsFlight(s, c, result, generation);
    case Advance(_) => TimeKeepsFlight(s, s');
    case Remove(a) => RemovalKeepsInvIff(s, a);
    case Close => TimeKeepsFlight(s, s');
  }

  // ----- runs -----

  ghost predicate IsRun(trace: seq<State>, events: seq<Event>) {
    && |trace| == |events| + 1 && trace[0] == BEGIN
    && forall i :: 0 <= i < |events| ==> StepAt(trace, events, i)
  }

  ghost predicate StepAt(trace: seq<State>, events: seq<Event>, i: nat)
    requires i < |events| && i + 1 < |trace|
  {
    Step(trace[i], events[i], trace[i + 1])
  }

  /** In every run the list has the cached entries, last used first, and at most 16 of them. */
  lemma {:induction false} RunKeepsLru(trace: seq<State>, events: seq<Event>, i: nat)
    requires IsRun(trace, events) && i < |trace|
    ensures LruOk(trace[i]) && |trace[i].versions| <= MAX_VERSIONS
  {
    if i > 0 {
      RunKeepsLru(trace, events, i - 1);
      assert StepAt(trace, events, i - 1);
      StepKeepsLru(trace[i - 1], events[i - 1], trace[i]);
    }
  }

  /** No removal of the run hits work under way for a cached entry. */
  ghost predicate QuietRemovals(trace: seq<State>, events: seq<Event>)
    requires |trace| == |events| + 1
  {
    forall i :: 0 <= i < |events| ==> QuietAt(trace, events, i)
  }

  ghost predicate QuietAt(trace: seq<State>, events: seq<Event>, i: nat)
    requires i < |events| && i < |trace|
  {
    events[i].Remove? ==> !Busy(trace[i], events[i].auth)
  }

  lemma {:induction false} RunKeepsInv(trace: seq<State>, events: seq<Event>, i: nat)
    requires IsRun(trace, events) && QuietRemovals(trace, events) && i < |trace|
    ensures Inv(trace[i])
  {
    if i > 0 {
      RunKeepsInv(trace, events, i - 1);
      RunStepKeepsInv(trace, events, i - 1);
    }
  }

  lemma RunStepKeepsInv(trace: seq<State>, events: seq<Event>, k: nat)
    requires IsRun(trace, events) && QuietRemovals(trace, events) && k < |events| && Inv(trace[k])
    ensures Inv(trace[k + 1])
  {
    assert StepAt(trace, events, k) && QuietAt(trace, events, k);
    StepKeepsInv(trace[k], events[k], trace[k + 1]);
  }

  /** Never are two fetches in flight for the same auth of the same entry. */
  lemma OneFetchInFlight(trace: seq<State>, events: seq<Event>, i: nat, c: Call, d: Call)
    requires IsRun(trace, events) && QuietRemovals(trace, events) && i < |trace|
    requires c in trace[i].tasks && d in trace[i].tasks && SameTarget(trace[i], c, d)
    ensures c == d
  {
    RunKeepsInv(trace, events, i);
  }

  /** Until the catalog is closed no cycle fetches more than once and three retries. */
  lemma CycleIsBounded(trace: seq<State>, events: seq<Event>, i: nat, e: Entry, a: AuthId)
    requires IsRun(trace, events) && QuietRemovals(trace, events) && i < |trace|
    requires Tracks(trace[i], e, a) && !trace[i].closed
    ensures Get(trace[i], e, a).past.fetches <= 1 + BACKGROUND_RETRIES
  {
    RunKeepsInv(trace, events, i);
    assert StateOk(trace[i], e, a);
  }

  /** A request opens a new cycle only a TTL after the last one began, or once the auth was healthy since. */
  lemma NewCycleIsDue(
    trace: seq<State>, events: seq<Event>, i: nat, e: Entry, a: AuthId, now: int, healthy: nat)
    requires IsRun(trace, events) && QuietRemovals(trace, events) && i < |trace|
    requires Current(trace[i], e) && TTL <= now <= trace[i].clock
    requires Decide(Get(trace[i], e, a), now, healthy).Fetch?
    ensures var st := Get(trace[i], e, a);
      && WithFetch(st, now, trace[i].next).past ==
           (if OpensCycle(st.cycle) then Past(now, 1) else Past(st.past.began, st.past.fetches + 1))
      && (OpensCycle(st.cycle) ==>
            st.past.began + TTL <= now || (st.cycle.exhausted && st.cycle.generation < healthy))
      && (!trace[i].closed ==> OpensCycle(st.cycle))
  {
    RunKeepsInv(trace, events, i);
    if a in trace[i].entries[e].auths {
      assert Tracks(trace[i], e, a) && StateOk(trace[i], e, a);
    }
  }

  // ----- evicted entries -----

  /** Whatever happens next, an evicted entry stays evicted and as it is. */
  lemma EvictedStaysEvicted(s: State, e: Event, s': State, entry: Entry)
    requires LruOk(s) && Step(s, e, s') && entry in s.entries && !Current(s, entry)
    ensures entry in s'.entries && !Current(s', entry) && s'.entries[entry] == s.entries[entry]
  {
    assert EntryOk(s, entry);
    match e
    case Request(v, auths, now, healthy) =>
      OpenedMeans(s, v);
      OpenedHasEntry(s, v);
      OpenedKeepsEvicted(s, v, entry);
      AskedAllKeepsOthers(Opened(s, v), Opened(s, v).versions[v], auths, now, healthy, entry);
    case ForegroundResult(_, _) => ResultKeepsEvicted(s, e, s', entry);
    case Pause(_, _) => ResultKeepsEvicted(s, e, s', entry);
    case BackgroundResult(_, _, _) => ResultKeepsEvicted(s, e, s', entry);
    case _ =>
  }

  lemma ResultKeepsEvicted(s: State, e: Event, s': State, entry: Entry)
    requires Step(s, e, s') && (e.ForegroundResult? || e.Pause? || e.BackgroundResult?)
    requires entry in s.entries && !Current(s, entry)
    ensures entry in s'.entries && !Current(s', entry) && s'.entries[entry] == s.entries[entry]
    ensures s.tasks[e.call].entry == entry ==> s' == s.(tasks := s'.tasks)
  {
    var target, a := s.tasks[e.call].entry, s.tasks[e.call].auth;
    if Tracks(s, target, a) && s'.entries != s.entries {
      TrackedResultPuts(s, e, s');
    }
  }

  /** A result that changes an entry changes one auth's state in the cached entry of its task. */
  lemma TrackedResultPuts(s: State, e: Event, s': State)
    requires Step(s, e, s') && (e.ForegroundResult? || e.Pause? || e.BackgroundResult?)
    requires Tracks(s, s.tasks[e.call].entry, s.tasks[e.call].auth) && s'.entries != s.entries
    ensures var target, a := s.tasks[e.call].entry, s.tasks[e.call].auth;
      && a in s'.entries[target].auths
      && s' == Put(s, target, a, s'.entries[target].auths[a]).(tasks := s'.tasks)
  {
  }

  lemma OpenedKeepsEvicted(s: State, v: Version, entry: Entry)
    requires LruOk(s) && entry in s.entries && !Current(s, entry)
    ensures var t := Opened(s, v); entry in t.entries && !Current(t, entry) && t.entries[entry] == s.entries[entry]
  {
    assert EntryOk(s, entry);
    if v in s.versions {
      CachedMeans(s, v);
    } else {
      OldestIsCached(s, v);
      AddedKeepsEvicted(s, v, entry);
    }
  }

  lemma AddedKeepsEvicted(s: State, v: Version, entry: Entry)
    requires LruOk(s) && v !in s.versions && entry in s.entries && !Current(s, entry)
    ensures var t := Added(s, v); entry in t.entries && !Current(t, entry) && t.entries[entry] == s.entries[entry]
    ensures |Added(s, v).lru| == |s.lru| + 1 && Added(s, v).lru[|s.lru|] != entry
  {
    assert EntryOk(s, entry);
    if |s.lru| > 0 {
      assert Current(s, s.lru[|s.lru| - 1]);
    }
  }

  lemma {:induction false} AskedAllKeepsCurrent(
    s: State, e: Entry, auths: seq<AuthId>, now: int, healthy: map<AuthId, nat>, entry: Entry)
    requires e in s.entries && entry in s.entries
    ensures entry in AskedAll(s, e, auths, now, healthy).entries
    ensures Current(AskedAll(s, e, auths, now, healthy), entry) <==> Current(s, entry)
  {
    if |auths| > 0 {
      AskedAllKeepsCurrent(s, e, auths[..|auths| - 1], now, healthy, entry);
    }
  }

  lemma {:induction false} AskedAllKeepsOthers(
    s: State, e: Entry, auths: seq<AuthId>, now: int, healthy: map<AuthId, nat>, entry: Entry)
    requires e in s.entries && entry in s.entries && entry != e
    ensures var t := AskedAll(s, e, auths, now, healthy);
      && entry in t.entries && t.entries[entry] == s.entries[entry] && (Current(t, entry) <==> Current(s, entry))
  {
    if |auths| > 0 {
      AskedAllKeepsOthers(s, e, auths[..|auths| - 1], now, healthy, entry);
    }
  }

  /** In every run, removals included, what is evicted is never used or changed again: late results are dropped. */
  lemma {:induction false} EvictedIsFrozen(trace: seq<State>, events: seq<Event>, i: nat, j: nat, entry: Entry)
    requires IsRun(trace, events) && i <= j < |trace|
    requires entry in trace[i].entries && !Current(trace[i], entry)
    ensures entry in trace[j].entries && !Current(trace[j], entry)
    ensures trace[j].entries[entry] == trace[i].entries[entry]
  {
    if i < j {
      EvictedIsFrozen(trace, events, i, j - 1, entry);
      RunKeepsLru(trace, events, j - 1);
      assert StepAt(trace, events, j - 1);
      EvictedStaysEvicted(trace[j - 1], events[j - 1], trace[j], entry);
    }
  }

  /** A result, a failure or the end of a pause for an evicted entry changes nothing but the list of tasks. */
  lemma StaleResultsAreDropped(trace: seq<State>, events: seq<Event>, i: nat, j: nat)
    requires IsRun(trace, events) && i <= j < |events|
    requires events[j].ForegroundResult? || events[j].Pause? || events[j].BackgroundResult?
    requires events[j].call in trace[j].tasks
    requires var entry := trace[j].tasks[events[j].call].entry;
      entry in trace[i].entries && !Current(trace[i], entry)
    ensures trace[j + 1] == trace[j].(tasks := trace[j + 1].tasks)
  {
    var entry := trace[j].tasks[events[j].call].entry;
    EvictedIsFrozen(trace, events, i, j, entry);
    assert StepAt(trace, events, j);
    ResultKeepsEvicted(trace[j], events[j], trace[j + 1], entry);
  }

  /**
   * By version string and not by entry: fetches of evicted entries may run beside the new entry's, but
   * of those that can still report for a version only one is in flight for an auth.
   */
  lemma OneFetchPerVersion(trace: seq<State>, events: seq<Event>, i: nat, c: Call, d: Call)
    requires IsRun(trace, events) && QuietRemovals(trace, events) && i < |trace|
    requires c in trace[i].tasks && d in trace[i].tasks && trace[i].tasks[c].auth == trace[i].tasks[d].auth
    requires var s := trace[i];
      var e, f := s.tasks[c].entry, s.tasks[d].entry;
      Current(s, e) && Current(s, f) && s.entries[e].version == s.entries[f].version
    ensures c == d
  {
    OneFetchInFlight(trace, events, i, c, d);
  }

  // ----- snapshots -----

  /** The event brings a successful fetch of auth `b` for entry `f`. */
  predicate Delivers(s: State, e: Event, f: Entry, b: AuthId) {
    && (e.ForegroundResult? || e.BackgroundResult?) && e.result.Some?
    && e.call in s.tasks && s.tasks[e.call].entry == f && s.tasks[e.call].auth == b
  }

  lemma {:induction false} AskedAllKeepsSnapshots(
    s: State, e: Entry, auths: seq<AuthId>, now: int, healthy: map<AuthId, nat>, f: Entry, b: AuthId)
    requires e in s.entries && f in s.entries
    ensures var t := AskedAll(s, e, auths, now, healthy);
      f in t.entries && Get(t, f, b).snapshot == Get(s, f, b).snapshot
  {
    if |auths| > 0 {
      AskedAllKeepsSnapshots(s, e, auths[..|auths| - 1], now, healthy, f, b);
    }
  }

  lemma ResultKeepsSnapshot(s: State, e: Event, s': State, f: Entry, b: AuthId)
    requires Step(s, e, s') && f in s.entries && (e.ForegroundResult? || e.Pause? || e.BackgroundResult?)
    requires !Delivers(s, e, f, b)
    ensures f in s'.entries && Get(s', f, b).snapshot == Get(s, f, b).snapshot
  {
    var entry, a := s.tasks[e.call].entry, s.tasks[e.call].auth;
    if Tracks(s, entry, a) && s'.entries != s.entries {
    }
  }

  lemma StepKeepsSnapshot(s: State, e: Event, s': State, f: Entry, b: AuthId)
    requires LruOk(s) && Step(s, e, s') && f in s.entries && !Delivers(s, e, f, b) && e != Remove(b)
    ensures f in s'.entries && Get(s', f, b).snapshot == Get(s, f, b).snapshot
  {
    match e
    case Request(v, auths, now, healthy) =>
      OpenedMeans(s, v);
      assert StillThere(s, Opened(s, v), f);
      OpenedHasEntry(s, v);
      AskedAllKeepsSnapshots(Opened(s, v), Opened(s, v).versions[v], auths, now, healthy, f, b);
    case ForegroundResult(_, _) => ResultKeepsSnapshot(s, e, s', f, b);
    case Pause(_, _) => ResultKeepsSnapshot(s, e, s', f, b);
    case BackgroundResult(_, _, _) => ResultKeepsSnapshot(s, e, s', f, b);
    case _ =>
  }

  /** Only a successful fetch of the auth replaces its snapshot: failures, at any point of a run, leave it. */
  lemma {:induction false} FailuresKeepSnapshots(
    trace: seq<State>, events: seq<Event>, i: nat, j: nat, f: Entry, b: AuthId)
    requires IsRun(trace, events) && i <= j < |trace| && f in trace[i].entries
    requires forall k :: i <= k < j ==> !Delivers(trace[k], events[k], f, b) && events[k] != Remove(b)
    ensures f in trace[j].entries && Get(trace[j], f, b).snapshot == Get(trace[i], f, b).snapshot
  {
    if i < j {
      FailuresKeepSnapshots(trace, events, i, j - 1, f, b);
      RunStepKeepsSnapshot(trace, events, j - 1, f, b);
    }
  }

  lemma RunStepKeepsSnapshot(trace: seq<State>, events: seq<Event>, k: nat, f: Entry, b: AuthId)
    requires IsRun(trace, events) && k < |events| && f in trace[k].entries
    requires !Delivers(trace[k], events[k], f, b) && events[k] != Remove(b)
    ensures f in trace[k + 1].entries && Get(trace[k + 1], f, b).snapshot == Get(trace[k], f, b).snapshot
  {
    RunKeepsLru(trace, events, k);
    assert StepAt(trace, events, k);
    StepKeepsSnapshot(trace[k], events[k], trace[k + 1], f, b);
  }

  /** A successful fetch for a cached entry leaves exactly its models there, and nothing more to fetch. */
  lemma FetchIsStored(s: State, e: Event, s': State)
    requires Inv(s) && Step(s, e, s') && (e.ForegroundResult? || e.BackgroundResult?) && e.result.Some?
    requires Current(s, s.tasks[e.call].entry)
    ensures var entry, a := s.tasks[e.call].entry, s.tasks[e.call].auth;
      && e.call !in s'.tasks && entry in s'.entries && Tracks(s', entry, a)
      && Get(s', entry, a).snapshot == Snapshot(Some(e.result.value), s.clock)
      && Get(s', entry, a).flight == Flight(None, false) && Get(s', entry, a).cycle == Cycle(0, false, 0)
  {
    TaskMeans(s, e.call);
  }

  /** A failed fetch for a cached entry is retried in the background, up to three times; then the cycle rests. */
  lemma FailedFetchGoesOn(s: State, e: Event, s': State)
    requires Inv(s) && Step(s, e, s') && (e.ForegroundResult? || e.BackgroundResult?) && e.result.None?
    requires Current(s, s.tasks[e.call].entry)
    ensures var entry, a := s.tasks[e.call].entry, s.tasks[e.call].auth;
      var tries := if e.ForegroundResult? then 0 else s.tasks[e.call].attempt;
      if tries < 3 then
        e.call in s'.tasks && s'.tasks[e.call] == Retrying(entry, a, tries + 1, false)
      else
        && e.call !in s'.tasks && entry in s'.entries
        && Get(s', entry, a).cycle.exhausted && Get(s', entry, a).cycle.generation == e.generation
        && Get(s', entry, a).flight == Flight(None, false)
  {
    TaskMeans(s, e.call);
  }

  /** Looking at a cached version moves it to the front and leaves the order of the others. */
  lemma ViewMovesToFront(s: State, e: Entry, s': State)
    requires LruOk(s) && Current(s, e) && Step(s, View(e), s')
    ensures s'.lru[..1] == [e] && s'.lru[1..] == Without(s.lru, e) && s'.tasks == s.tasks
  {
  }

  /** When a request starts a fetch for an auth of a cached entry; otherwise no task is added. */
  lemma RequestFetchesIff(s: State, e: Entry, a: AuthId, now: int, healthy: nat)
    requires Inv(s) && Current(s, e) && TTL <= now <= s.clock
    ensures var st, t := Get(s, e, a), Asked(s, e, a, now, healthy);
      var isDue :=
        && st.snapshot.fetchedAt + TTL <= now && st.flight == Flight(None, false)
        && (st.cycle.exhausted ==> st.cycle.generation < healthy || st.cycle.startedAt + TTL <= now);
      && t.tasks == (if isDue then s.tasks[s.next := Foreground(e, a)] else s.tasks)
      && (isDue ==> s.next !in s.tasks && Get(t, e, a).flight.foreground == Some(s.next))
  {
    if Decide(Get(s, e, a), now, healthy).Fetch? {
      FetchStartsAlone(s, e, a, now, healthy);
    } else if a in s.entries[e].auths {
      assert s.entries[e].auths[a := Get(s, e, a)] == s.entries[e].auths;
    }
    assert Get(s, e, a).flight == Flight(None, false) <==>
      Get(s, e, a).flight.foreground.None? && !Get(s, e, a).flight.background;
  }

  /** A request for one auth, whose healthy epoch is 0 until it first becomes healthy. */
  lemma RequestForOne(s: State, v: Version, a: AuthId, now: int, healthy: map<AuthId, nat>, s': State)
    requires LruOk(s) && Step(s, Request(v, [a], now, healthy), s')
    ensures v in Opened(s, v).versions && Opened(s, v).versions[v] in Opened(s, v).entries
    ensures s' == Asked(Opened(s, v), Opened(s, v).versions[v], a, now, if a in healthy then healthy[a] else 0)
  {
    OpenedHasEntry(s, v);
    var t := Opened(s, v);
    var none: seq<AuthId> := [];
    assert [a][..0] == none;
    assert AskedAll(t, t.versions[v], none, now, healthy) == t;
  }

  // ----- a run in which a removal hits a retry -----

  /** The one entry and the one task of a catalog that has been asked for one auth. */
  ghost predicate OneTask(s: State, v: Version, a: AuthId, task: Task) {
    && Inv(s) && s.clock == TTL && s.next == 2 && s.tasks == map[1 := task]
    && task.entry == 0 && task.auth == a && Tracks(s, 0, a) && s.entries[0].version == v
  }

  lemma FirstRequest(v: Version, a: AuthId)
    ensures var s := Asked(Opened(BEGIN, v), 0, a, TTL, 0);
      Step(BEGIN, Request(v, [a], TTL, map[]), s) && OneTask(s, v, a, Foreground(0, a))
  {
    assert Inv(BEGIN);
    OpenedHasEntry(BEGIN, v);
    var found := Opened(BEGIN, v);
    AskedOne(found, 0, a, TTL);
    assert Get(found, 0, a) == UNSEEN && Decide(UNSEEN, TTL, 0).Fetch?;
    StepKeepsInv(BEGIN, Request(v, [a], TTL, map[]), Asked(found, 0, a, TTL, 0));
  }

  lemma FailedFetch(s: State, v: Version, a: AuthId)
    requires OneTask(s, v, a, Foreground(0, a))
    ensures var t := ForegroundDone(s, 1, None);
      Step(s, ForegroundResult(1, None), t) && OneTask(t, v, a, Retrying(0, a, 1, false))
  {
    TaskMeans(s, 1);
    StepKeepsInv(s, ForegroundResult(1, None), ForegroundDone(s, 1, None));
  }

  lemma RetrySent(s: State, v: Version, a: AuthId)
    requires OneTask(s, v, a, Retrying(0, a, 1, false))
    ensures var t := Paused(s, 1, false);
      Step(s, Pause(1, false), t) && OneTask(t, v, a, Retrying(0, a, 1, true))
  {
    StepKeepsInv(s, Pause(1, false), Paused(s, 1, false));
  }

  lemma OldFetchReports(s: State, a: AuthId, models: Models)
    requires Tracks(s, 0, a) && 1 in s.tasks && s.tasks[1] == Retrying(0, a, 1, true)
    ensures var t := BackgroundDone(s, 1, Some(models), 0);
      && Step(s, BackgroundResult(1, Some(models), 0), t) && 0 in t.entries
      && Get(t, 0, a).snapshot == Snapshot(Some(models), s.clock)
  {
  }

  lemma RunGrows(trace: seq<State>, events: seq<Event>, e: Event, s': State)
    requires IsRun(trace, events) && Step(trace[|trace| - 1], e, s')
    ensures IsRun(trace + [s'], events + [e])
  {
    var longer, more := trace + [s'], events + [e];
    forall i | 0 <= i < |more|
      ensures StepAt(longer, more, i)
    {
      assert i < |events| ==> StepAt(trace, events, i);
    }
  }

  lemma RequestRun(v: Version, a: AuthId) returns (trace: seq<State>)
    ensures IsRun(trace, [Request(v, [a], TTL, map[])])
    ensures OneTask(trace[1], v, a, Foreground(0, a))
  {
    var request := Request(v, [a], TTL, map[]);
    FirstRequest(v, a);
    var s := Asked(Opened(BEGIN, v), 0, a, TTL, 0);
    assert IsRun([BEGIN], []);
    RunGrows([BEGIN], [], request, s);
    assert [] + [request] == [request];
    trace := [BEGIN] + [s];
  }

  lemma FailureRun(v: Version, a: AuthId) returns (trace: seq<State>)
    ensures IsRun(trace, [Request(v, [a], TTL, map[])] + [ForegroundResult(1, None)])
    ensures OneTask(trace[2], v, a, Retrying(0, a, 1, false))
  {
    var start := RequestRun(v, a);
    FailedFetch(start[1], v, a);
    var s := ForegroundDone(start[1], 1, None);
    RunGrows(start, [Request(v, [a], TTL, map[])], ForegroundResult(1, None), s);
    trace := start + [s];
  }

  /** The run up to the retry's fetch. */
  lemma RetryingRun(v: Version, a: AuthId) returns (trace: seq<State>)
    ensures IsRun(trace, [Request(v, [a], TTL, map[])] + [ForegroundResult(1, None)] + [Pause(1, false)])
    ensures OneTask(trace[3], v, a, Retrying(0, a, 1, true))
  {
    var start := FailureRun(v, a);
    RetrySent(start[2], v, a);
    var s := Paused(start[2], 1, false);
    RunGrows(start, [Request(v, [a], TTL, map[])] + [ForegroundResult(1, None)], Pause(1, false), s);
    trace := start + [s];
  }

  lemma TwoInFlight(s: State, v: Version, a: AuthId)
    requires OneTask(s, v, a, Retrying(0, a, 1, true))
    ensures var removed := Removed(s, a);
      Step(s, Remove(a), removed) && Busy(s, a) && 0 in removed.entries && a !in removed.entries[0].auths &&
      LruOk(removed) &&
      var again := Asked(Opened(removed, v), 0, a, TTL, 0);
      && Step(removed, Request(v, [a], TTL, map[]), again)
      && 1 in again.tasks && 2 in again.tasks && SameTarget(again, 1, 2)
      && Tracks(again, 0, a) && again.tasks[1] == Retrying(0, a, 1, true) && again.clock == TTL
  {
    assert Current(s, s.tasks[1].entry);
    BusyRemovalDoublesFetch(s, 1);
  }

  /**
   * From the start: an auth is removed while a retry fetches for it, and added again. Two fetches are then
   * in flight for the same auth of the same entry, and the result of the old one is filed for the new auth.
   */
  lemma ReaddedAuthGetsOldFetch(v: Version, a: AuthId, models: Models) returns (trace: seq<State>)
    ensures
      var request := Request(v, [a], TTL, map[]);
      IsRun(trace, [request] + [ForegroundResult(1, None)] + [Pause(1, false)] + [Remove(a)] + [request] +
                   [BackgroundResult(1, Some(models), 0)])
    ensures Busy(trace[3], a) && 0 in trace[4].entries && a !in trace[4].entries[0].auths
    ensures 1 in trace[5].tasks && 2 in trace[5].tasks && SameTarget(trace[5], 1, 2)
    ensures 0 in trace[6].entries && Get(trace[6], 0, a).snapshot == Snapshot(Some(models), TTL)
  {
    var request := Request(v, [a], TTL, map[]);
    var events := [request] + [ForegroundResult(1, None)] + [Pause(1, false)];
    var start := RetryingRun(v, a);
    TwoInFlight(start[3], v, a);
    var removed := Removed(start[3], a);
    RunGrows(start, events, Remove(a), removed);
    var again := Asked(Opened(removed, v), 0, a, TTL, 0);
    RunGrows(start + [removed], events + [Remove(a)], request, again);
    OldFetchReports(again, a, models);
    var last := BackgroundDone(again, 1, Some(models), 0);
    RunGrows(start + [removed] + [again], events + [Remove(a)] + [request], BackgroundResult(1, Some(models), 0), last);
    trace := start + [removed] + [again] + [last];
  }
}

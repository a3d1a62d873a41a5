// The runtime model catalog: one fetch per cached client version and auth at a time, bounded retries,
// and a bounded set of versions (internal/codexonly/models.go). Concurrent requests and fetches are
// interleaved critical sections; entries are objects, so an evicted entry lives on in its fetches.

module ModelCatalog {
  import opened Wrappers

  type Version = string
  type AuthId = string
  type Models = seq<string>

  /** Entries and foreground calls are objects; these are their identities. */
  type Entry = nat
  type Call = nat

  // Times are nanoseconds since Go's zero time, so IsZero() is == 0.
  const TTL := 3 * 60 * 60 * 1_000_000_000
  const MAX_VERSIONS := 16
  const BACKGROUND_RETRIES := 3

  datatype Snapshot = Snapshot(models: Option<Models>, fetchedAt: int)

  datatype Flight = Flight(foreground: Option<Call>, background: bool)

  datatype Cycle = Cycle(startedAt: int, exhausted: bool, generation: nat)

  /** When the last cycle began and how often it has fetched: history, not fields of the source. */
  datatype Past = Past(began: int, fetches: nat)

  datatype AuthState = AuthState(snapshot: Snapshot, flight: Flight, cycle: Cycle, past: Past)

  /** `used` is when a request last used the entry: history, not a field of the source. */
  datatype VersionEntry = VersionEntry(version: Version, auths: map<AuthId, AuthState>, evicted: bool, used: nat)

  /** A fetch in flight, or the pause before the next retry. */
  datatype Task =
    | Foreground(entry: Entry, auth: AuthId)
    | Retrying(entry: Entry, auth: AuthId, attempt: nat, fetching: bool)

  datatype State = State(
    entries: map<Entry, VersionEntry>, versions: map<Version, Entry>, lru: seq<Entry>, tasks: map<Call, Task>,
    next: nat, uses: nat, clock: int, closed: bool)

  const UNSEEN := AuthState(Snapshot(None, 0), Flight(None, false), Cycle(0, false, 0), Past(0, 0))

  predicate Current(s: State, e: Entry) {
    && e in s.entries && !s.entries[e].evicted
    && s.entries[e].version in s.versions && s.versions[s.entries[e].version] == e
  }

  function Get(s: State, e: Entry, a: AuthId): AuthState
    requires e in s.entries
  {
    if a in s.entries[e].auths then s.entries[e].auths[a] else UNSEEN
  }

  function Put(s: State, e: Entry, a: AuthId, st: AuthState): State
    requires e in s.entries
  {
    s.(entries := s.entries[e := s.entries[e].(auths := s.entries[e].auths[a := st])])
  }

  // ----- one auth of a request -----

  datatype Decision = Skip | Join(call: Call) | Fetch

  predicate Resting(c: Cycle, now: int, healthy: nat) {
    c.exhausted && healthy <= c.generation && c.startedAt + TTL > now
  }

  function Decide(st: AuthState, now: int, healthy: nat): Decision {
    if st.snapshot.fetchedAt + TTL > now then Skip
    else if st.flight.foreground.Some? then Join(st.flight.foreground.value)
    else if st.flight.background || Resting(st.cycle, now, healthy) then Skip
    else Fetch
  }

  predicate OpensCycle(c: Cycle) {
    c.exhausted || c.startedAt == 0
  }

  function WithFetch(st: AuthState, now: int, call: Call): AuthState {
    st.(flight := Flight(Some(call), st.flight.background),
        cycle := Cycle(if OpensCycle(st.cycle) then now else st.cycle.startedAt, false, st.cycle.generation),
        past := if OpensCycle(st.cycle) then Past(now, 1) else Past(st.past.began, st.past.fetches + 1))
  }

  function Asked(s: State, e: Entry, a: AuthId, now: int, healthy: nat): State
    requires e in s.entries
  {
    var st := Get(s, e, a);
    if Decide(st, now, healthy).Fetch? then
      Put(s, e, a, WithFetch(st, now, s.next)).(tasks := s.tasks[s.next := Foreground(e, a)], next := s.next + 1)
    else Put(s, e, a, st)
  }

  function AskedAll(s: State, e: Entry, auths: seq<AuthId>, now: int, healthy: map<AuthId, nat>): (t: State)
    requires e in s.entries
    ensures e in t.entries
  {
    if |auths| == 0 then s
    else
      var t := AskedAll(s, e, auths[..|auths| - 1], now, healthy);
      var a := auths[|auths| - 1];
      Asked(t, e, a, now, Generation(healthy, a))
  }

  function Generation(healthy: map<AuthId, nat>, a: AuthId): nat {
    if a in healthy then healthy[a] else 0
  }

  // ----- versions -----

  function Without(lru: seq<Entry>, e: Entry): seq<Entry> {
    if |lru| == 0 then lru
    else if lru[0] == e then Without(lru[1..], e)
    else [lru[0]] + Without(lru[1..], e)
  }

  /** MoveToFront. */
  function Used(s: State, e: Entry): State
    requires e in s.entries
  {
    s.(entries := s.entries[e := s.entries[e].(used := s.uses + 1)], uses := s.uses + 1,
       lru := [e] + Without(s.lru, e))
  }

  function Added(s: State, v: Version): State {
    s.(entries := s.entries[s.next := VersionEntry(v, map[], false, s.uses + 1)], uses := s.uses + 1,
       versions := s.versions[v := s.next], lru := [s.next] + s.lru, next := s.next + 1)
  }

  function EvictedOldest(s: State): State
    requires |s.lru| > 0 && s.lru[|s.lru| - 1] in s.entries
  {
    var e := s.lru[|s.lru| - 1];
    s.(entries := s.entries[e := s.entries[e].(evicted := true)], versions := s.versions - {s.entries[e].version},
       lru := s.lru[..|s.lru| - 1])
  }

  /** versionLocked: the entry of `v` is there and in front, and at most MAX_VERSIONS are left. */
  function Opened(s: State, v: Version): State
    requires LruOk(s)
  {
    if v in s.versions then
      CachedMeans(s, v);
      Used(s, s.versions[v])
    else
      OldestIsCached(s, v);
      if |Added(s, v).versions| > MAX_VERSIONS then EvictedOldest(Added(s, v)) else Added(s, v)
  }

  // ----- fetch results -----

  function Applied(st: AuthState, models: Models, clock: int): AuthState {
    st.(snapshot := Snapshot(Some(models), clock), flight := st.flight.(background := false),
        cycle := Cycle(0, false, 0))
  }

  function Tracks(s: State, e: Entry, a: AuthId): bool {
    Current(s, e) && a in s.entries[e].auths
  }

  /** runForegroundFetch after the fetch; a failure hands over to the background. */
  function ForegroundDone(s: State, c: Call, result: Option<Models>): State
    requires c in s.tasks && s.tasks[c].Foreground?
  {
    var e, a := s.tasks[c].entry, s.tasks[c].auth;
    var t := s.(tasks := s.tasks - {c});
    if !Tracks(s, e, a) || Get(s, e, a).flight.foreground != Some(c) then t
    else
      var st := Get(s, e, a).(flight := Flight(None, Get(s, e, a).flight.background));
      match result
      case Some(models) => Put(t, e, a, Applied(st, models, s.clock))
      case None =>
        if st.flight.background then Put(t, e, a, st)
        else
          Put(t, e, a, st.(flight := Flight(None, true))).(tasks := s.tasks[c := Retrying(e, a, 1, false)])
  }

  /** finishBackground. */
  function Finished(s: State, e: Entry, a: AuthId, exhausted: bool, healthy: nat): State {
    if !Tracks(s, e, a) then s
    else
      var st := Get(s, e, a);
      Put(s, e, a, st.(flight := st.flight.(background := false),
                       cycle := Cycle(st.cycle.startedAt, exhausted, if exhausted then healthy else st.cycle.generation)))
  }

  /** A pause ends: the retry is sent, or the context of the entry was cancelled. */
  function Paused(s: State, c: Call, canceled: bool): State
    requires c in s.tasks && s.tasks[c].Retrying?
  {
    var task := s.tasks[c];
    if canceled then Finished(s.(tasks := s.tasks - {c}), task.entry, task.auth, false, 0)
    else
      var t := s.(tasks := s.tasks[c := task.(fetching := true)]);
      if !Tracks(s, task.entry, task.auth) then t
      else
        var st := Get(s, task.entry, task.auth);
        Put(t, task.entry, task.auth, st.(past := Past(st.past.began, st.past.fetches + 1)))
  }

  function BackgroundDone(s: State, c: Call, result: Option<Models>, healthy: nat): State
    requires c in s.tasks && s.tasks[c].Retrying?
  {
    var task := s.tasks[c];
    var t := s.(tasks := s.tasks - {c});
    match result
    case Some(models) =>
      if Tracks(s, task.entry, task.auth) then
        Put(t, task.entry, task.auth, Applied(Get(s, task.entry, task.auth), models, s.clock))
      else t
    case None =>
      if task.attempt < BACKGROUND_RETRIES then
        s.(tasks := s.tasks[c := Retrying(task.entry, task.auth, task.attempt + 1, false)])
      else Finished(t, task.entry, task.auth, true, healthy)
  }

  /** Reconcile: the auth is gone from every cached version. */
  function Removed(s: State, a: AuthId): State {
    s.(entries := map e | e in s.entries ::
       if Current(s, e) then s.entries[e].(auths := s.entries[e].auths - {a}) else s.entries[e])
  }

  // ----- the invariant of the versions -----

  /** The list holds exactly the cached entries, last used first. */
  ghost predicate LruOk(s: State) {
    && (forall e :: e in s.entries ==> EntryOk(s, e))
    && (forall i :: 0 <= i < |s.lru| ==> Current(s, s.lru[i]))
    && (forall i, j :: 0 <= i < j < |s.lru| ==> UsedBefore(s, s.lru[j], s.lru[i]))
    && (forall v :: v in s.versions ==> Cached(s, v))
    && |s.lru| == |s.versions| <= MAX_VERSIONS
  }

  predicate EntryOk(s: State, e: Entry)
    requires e in s.entries
  {
    e < s.next && s.entries[e].used <= s.uses
  }

  predicate UsedBefore(s: State, e: Entry, f: Entry) {
    e in s.entries && f in s.entries && s.entries[e].used < s.entries[f].used
  }

  /** `v` is cached: its entry is in the list. */
  ghost predicate Cached(s: State, v: Version)
    requires v in s.versions
  {
    s.versions[v] in s.lru && s.versions[v] in s.entries && s.entries[s.versions[v]].version == v
  }

  lemma CachedMeans(s: State, v: Version)
    requires LruOk(s) && v in s.versions
    ensures s.versions[v] in s.entries && Current(s, s.versions[v])
  {
    assert Cached(s, v);
  }

  lemma OldestIsCached(s: State, v: Version)
    requires LruOk(s)
    ensures |Added(s, v).lru| > 0 && Added(s, v).lru[|s.lru|] in Added(s, v).entries
  {
    if |s.lru| > 0 {
      assert Current(s, s.lru[|s.lru| - 1]);
    }
  }

  lemma {:induction false} WithoutMeans(s: State, lru: seq<Entry>, e: Entry)
    requires forall i, j :: 0 <= i < j < |lru| ==> UsedBefore(s, lru[j], lru[i])
    ensures forall x :: x in Without(lru, e) <==> x in lru && x != e
    ensures forall i, j :: 0 <= i < j < |Without(lru, e)| ==> UsedBefore(s, Without(lru, e)[j], Without(lru, e)[i])
    ensures |Without(lru, e)| == |lru| - if e in lru then 1 else 0
  {
    if |lru| > 0 {
      WithoutMeans(s, lru[1..], e);
      assert lru == [lru[0]] + lru[1..];
      assert forall x :: x in lru[1..] ==> UsedBefore(s, x, lru[0]);
    }
  }

  lemma UsedKeepsOrder(s: State, e: Entry)
    requires LruOk(s) && Current(s, e) && e in s.lru
    ensures var t := Used(s, e); forall i, j :: 0 <= i < j < |t.lru| ==> UsedBefore(t, t.lru[j], t.lru[i])
  {
    var t := Used(s, e);
    WithoutMeans(s, s.lru, e);
    var rest := Without(s.lru, e);
    forall i, j | 0 <= i < j < |t.lru|
      ensures UsedBefore(t, t.lru[j], t.lru[i])
    {
      assert t.lru[j] == rest[j - 1] && rest[j - 1] in rest;
      assert Current(s, rest[j - 1]) && EntryOk(s, rest[j - 1]);
      if i > 0 {
        assert t.lru[i] == rest[i - 1] && rest[i - 1] in rest && UsedBefore(s, rest[j - 1], rest[i - 1]);
      }
    }
  }

  lemma UsedKeepsLru(s: State, e: Entry)
    requires LruOk(s) && Current(s, e) && e in s.lru
    ensures LruOk(Used(s, e)) && Used(s, e).lru[0] == e
  {
    var t := Used(s, e);
    WithoutMeans(s, s.lru, e);
    UsedKeepsOrder(s, e);
    var rest := Without(s.lru, e);
    forall i | 0 <= i < |t.lru|
      ensures Current(t, t.lru[i])
    {
      if i > 0 {
        assert t.lru[i] == rest[i - 1] && rest[i - 1] in rest;
        assert Current(s, t.lru[i]);
      }
    }
    forall v | v in t.versions
      ensures Cached(t, v)
    {
      assert Cached(s, v) && (t.versions[v] == e || t.versions[v] in rest);
    }
    forall f | f in t.entries
      ensures EntryOk(t, f)
    {
      assert EntryOk(s, f);
    }
  }

  lemma AddedKeepsOrder(s: State, v: Version)
    requires LruOk(s) && v !in s.versions
    ensures var t := Added(s, v); forall i, j :: 0 <= i < j < |t.lru| ==> UsedBefore(t, t.lru[j], t.lru[i])
  {
    var t := Added(s, v);
    forall i, j | 0 <= i < j < |t.lru|
      ensures UsedBefore(t, t.lru[j], t.lru[i])
    {
      assert t.lru[j] == s.lru[j - 1] && Current(s, s.lru[j - 1]) && EntryOk(s, s.lru[j - 1]);
      if i > 0 {
        assert t.lru[i] == s.lru[i - 1] && UsedBefore(s, s.lru[j - 1], s.lru[i - 1]);
        assert EntryOk(s, s.lru[i - 1]);
      }
    }
  }

  lemma AddedKeepsEntries(s: State, v: Version)
    requires LruOk(s) && v !in s.versions
    ensures var t := Added(s, v);
      && (forall e :: e in t.entries ==> EntryOk(t, e))
      && (forall i :: 0 <= i < |t.lru| ==> Current(t, t.lru[i]))
      && (forall w :: w in t.versions ==> Cached(t, w))
      && |t.lru| == |t.versions| <= MAX_VERSIONS + 1 && t.lru[0] == s.next == t.versions[v]
  {
    var t := Added(s, v);
    forall e | e in t.entries
      ensures EntryOk(t, e)
    {
      assert e in s.entries ==> EntryOk(s, e);
    }
    forall i | 0 <= i < |t.lru|
      ensures Current(t, t.lru[i])
    {
      if i > 0 {
        assert t.lru[i] == s.lru[i - 1] && Current(s, s.lru[i - 1]) && EntryOk(s, s.lru[i - 1]);
      }
    }
    forall w | w in t.versions
      ensures Cached(t, w)
    {
      if w != v {
        assert Cached(s, w) && EntryOk(s, s.versions[w]);
      }
    }
  }

  /** Opening a version keeps the cache in order and puts the version's entry in front of it. */
  lemma OpenedKeepsLru(s: State, v: Version)
    requires LruOk(s)
    ensures var t := Opened(s, v); LruOk(t) && v in t.versions && t.lru[0] == t.versions[v]
  {
    if v in s.versions {
      CachedMeans(s, v);
      assert Cached(s, v);
      UsedKeepsLru(s, s.versions[v]);
    } else {
      AddedKeepsOrder(s, v);
      AddedKeepsEntries(s, v);
      var t := Added(s, v);
      if |t.versions| > MAX_VERSIONS {
        EvictedKeepsLru(t);
      }
    }
  }

  lemma EvictedKeepsLru(t: State)
    requires forall e :: e in t.entries ==> EntryOk(t, e)
    requires forall i :: 0 <= i < |t.lru| ==> Current(t, t.lru[i])
    requires forall i, j :: 0 <= i < j < |t.lru| ==> UsedBefore(t, t.lru[j], t.lru[i])
    requires forall w :: w in t.versions ==> Cached(t, w)
    requires 1 < |t.lru| == |t.versions| <= MAX_VERSIONS + 1 && t.lru[|t.lru| - 1] in t.entries
    ensures LruOk(EvictedOldest(t)) && EvictedOldest(t).lru[0] == t.lru[0]
    ensures var e := t.lru[|t.lru| - 1];
      forall w :: w in t.versions ==> (w in EvictedOldest(t).versions <==> t.versions[w] != e)
  {
    var n := |t.lru| - 1;
    var e, u := t.lru[n], EvictedOldest(t);
    assert Current(t, e);
    forall f | f in u.entries
      ensures EntryOk(u, f)
    {
      assert EntryOk(t, f);
    }
    forall i | 0 <= i < |u.lru|
      ensures Current(u, u.lru[i])
    {
      assert u.lru[i] == t.lru[i] && Current(t, t.lru[i]) && UsedBefore(t, e, t.lru[i]);
    }
    forall i, j | 0 <= i < j < |u.lru|
      ensures UsedBefore(u, u.lru[j], u.lru[i])
    {
      assert u.lru[i] == t.lru[i] && u.lru[j] == t.lru[j] && UsedBefore(t, t.lru[j], t.lru[i]);
    }
    forall w | w in u.versions
      ensures Cached(u, w)
    {
      assert Cached(t, w);
      var i :| 0 <= i < |t.lru| && t.lru[i] == t.versions[w];
      assert i < n ==> u.lru[i] == t.lru[i];
    }
  }
}

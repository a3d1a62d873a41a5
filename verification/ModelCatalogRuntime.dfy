// The catalog object: what each critical section does to its fields, as the model's steps say
// (runtimeModelCatalog, internal/codexonly/models.go).

module ModelCatalogRuntime {
  import opened Wrappers
  import opened ModelCatalog
  import opened ModelCatalogRun

  /** The calls that a request waits for: those it found in flight and those it started. */
  function AwaitedCalls(s: State, e: Entry, auths: seq<AuthId>, now: int, healthy: map<AuthId, nat>): seq<Call>
    requires e in s.entries
  {
    if |auths| == 0 then []
    else
      var before := auths[..|auths| - 1];
      var t, a := AskedAll(s, e, before, now, healthy), auths[|auths| - 1];
      AwaitedCalls(s, e, before, now, healthy) +
      match Decide(Get(t, e, a), now, Generation(healthy, a))
      case Skip => []
      case Join(c) => [c]
      case Fetch => [t.next]
  }

  lemma OneMoreAuth(s: State, e: Entry, auths: seq<AuthId>, i: nat, now: int, healthy: map<AuthId, nat>)
    requires e in s.entries && i < |auths|
    ensures
      var t, a := AskedAll(s, e, auths[..i], now, healthy), auths[i];
      && AskedAll(s, e, auths[..i + 1], now, healthy) == Asked(t, e, a, now, Generation(healthy, a))
      && AwaitedCalls(s, e, auths[..i + 1], now, healthy) ==
           AwaitedCalls(s, e, auths[..i], now, healthy) +
           match Decide(Get(t, e, a), now, Generation(healthy, a))
           case Skip => []
           case Join(c) => [c]
           case Fetch => [t.next]
  {
    assert auths[..i + 1][..i] == auths[..i];
  }

  lemma {:induction false} AskedAllKeepsVersion(
    s: State, e: Entry, auths: seq<AuthId>, now: int, healthy: map<AuthId, nat>)
    requires e in s.entries
    ensures AskedAll(s, e, auths, now, healthy).entries[e].version == s.entries[e].version
  {
    if |auths| > 0 {
      AskedAllKeepsVersion(s, e, auths[..|auths| - 1], now, healthy);
    }
  }

  class RuntimeModelCatalog {
    /** The entry objects, those of evicted versions included. */
    var entries: map<Entry, VersionEntry>
    var versions: map<Version, Entry>
    var lru: seq<Entry>
    var tasks: map<Call, Task>
    var next: nat
    var uses: nat
    var clock: int
    var closed: bool

    constructor ()
      ensures Snapshot() == BEGIN
    {
      entries, versions, lru, tasks, next, uses, clock, closed := map[], map[], [], map[], 0, 0, TTL, false;
    }

    ghost function Snapshot(): State
      reads this
    {
      State(entries, versions, lru, tasks, next, uses, clock, closed)
    }

    method MoveToFront(e: Entry)
      requires e in entries
      modifies this`entries, this`lru, this`uses
      ensures Snapshot() == Used(old(Snapshot()), e)
    {
      uses := uses + 1;
      entries := entries[e := entries[e].(used := uses)];
      var rest: seq<Entry> := [];
      for i := 0 to |lru|
        invariant rest + Without(lru[i..], e) == Without(lru, e)
      {
        assert lru[i..][1..] == lru[i + 1..];
        if lru[i] != e {
          rest := rest + [lru[i]];
        }
      }
      lru := [e] + rest;
    }

    method EvictOldest()
      requires |lru| > 0 && lru[|lru| - 1] in entries
      modifies this`entries, this`lru, this`versions
      ensures Snapshot() == EvictedOldest(old(Snapshot()))
    {
      var oldest := lru[|lru| - 1];
      versions := versions - {entries[oldest].version};
      lru := lru[..|lru| - 1];
      entries := entries[oldest := entries[oldest].(evicted := true)];
    }

    /** versionLocked. */
    method OpenVersion(v: Version) returns (e: Entry)
      requires LruOk(Snapshot())
      modifies this`entries, this`lru, this`versions, this`next, this`uses
      ensures Snapshot() == Opened(old(Snapshot()), v)
      ensures v in versions && e == versions[v] && Current(Snapshot(), e) && entries[e].version == v && lru[0] == e
    {
      OpenedIsInFront(Snapshot(), v);
      if v in versions {
        CachedMeans(Snapshot(), v);
        e := versions[v];
        MoveToFront(e);
        return;
      }
      OldestIsCached(Snapshot(), v);
      e := AddVersion(v);
      if |versions| > MAX_VERSIONS {
        EvictOldest();
      }
    }

    method AddVersion(v: Version) returns (e: Entry)
      modifies this`entries, this`lru, this`versions, this`next, this`uses
      ensures Snapshot() == Added(old(Snapshot()), v) && e == old(next)
    {
      e := next;
      next, uses := next + 1, uses + 1;
      entries := entries[e := VersionEntry(v, map[], false, uses)];
      lru := [e] + lru;
      versions := versions[v := e];
    }

    /** What a request does for one auth, in the words of the source. */
    method AskFor(e: Entry, a: AuthId, now: int, healthy: nat) returns (awaited: Option<Call>, started: bool)
      requires e in entries
      modifies this`entries, this`tasks, this`next
      ensures Snapshot() == Asked(old(Snapshot()), e, a, now, healthy)
      ensures match Decide(Get(old(Snapshot()), e, a), now, healthy)
        case Skip => awaited == None && !started
        case Join(c) => awaited == Some(c) && !started
        case Fetch => awaited == Some(old(next)) && started
    {
      var st := if a in entries[e].auths then entries[e].auths[a] else UNSEEN;
      awaited, started := None, false;
      var cycle, past := st.cycle, st.past;
      if st.snapshot.fetchedAt + TTL > now {
      } else if st.flight.foreground.Some? {
        awaited := st.flight.foreground;
      } else if !st.flight.background {
        if cycle.exhausted && healthy <= cycle.generation && cycle.startedAt + TTL > now {
        } else {
          if cycle.exhausted || cycle.startedAt == 0 {
            cycle, past := Cycle(now, false, cycle.generation), Past(now, 0);
          }
          awaited, started := Some(next), true;
        }
      }
      if started {
        st := AuthState(st.snapshot, Flight(awaited, false), cycle, past.(fetches := past.fetches + 1));
        tasks := tasks[next := Foreground(e, a)];
        next := next + 1;
      }
      SetState(e, a, st);
    }

    method SetState(e: Entry, a: AuthId, st: AuthState)
      requires e in entries
      modifies this`entries
      ensures Snapshot() == Put(old(Snapshot()), e, a, st)
    {
      entries := entries[e := entries[e].(auths := entries[e].auths[a := st])];
    }

    method AskForAll(e: Entry, auths: seq<AuthId>, now: int, healthy: map<AuthId, nat>) returns (awaited: seq<Call>)
      requires e in entries
      modifies this`entries, this`tasks, this`next
      ensures Snapshot() == AskedAll(old(Snapshot()), e, auths, now, healthy)
      ensures awaited == AwaitedCalls(old(Snapshot()), e, auths, now, healthy)
    {
      ghost var start := Snapshot();
      awaited := [];
      for i := 0 to |auths|
        invariant e in entries && Snapshot() == AskedAll(start, e, auths[..i], now, healthy)
        invariant awaited == AwaitedCalls(start, e, auths[..i], now, healthy)
      {
        OneMoreAuth(start, e, auths, i, now, healthy);
        var generation := if auths[i] in healthy then healthy[auths[i]] else 0;
        var call, started := AskFor(e, auths[i], now, generation);
        if call.Some? {
          awaited := awaited + [call.value];
        }
      }
      assert auths[..|auths|] == auths;
    }

    /** The critical section of Catalog; the request then waits for the awaited calls. */
    method Catalog(v: Version, auths: seq<AuthId>, now: int, healthy: map<AuthId, nat>)
      returns (e: Entry, awaited: seq<Call>)
      requires LruOk(Snapshot()) && TTL <= now <= clock
      modifies this
      ensures e in Opened(old(Snapshot()), v).entries && Current(Snapshot(), e) && entries[e].version == v
      ensures Snapshot() == AskedAll(Opened(old(Snapshot()), v), e, auths, now, healthy)
      ensures awaited == AwaitedCalls(Opened(old(Snapshot()), v), e, auths, now, healthy)
    {
      OpenedHasEntry(Snapshot(), v);
      e := OpenVersion(v);
      ghost var start := Snapshot();
      awaited := AskForAll(e, auths, now, healthy);
      AskedAllKeepsCurrent(start, e, auths, now, healthy, e);
      AskedAllKeepsVersion(start, e, auths, now, healthy);
    }

    /** aggregate marks the entry as used if it is still cached. */
    method Touch(e: Entry)
      modifies this`entries, this`lru, this`uses
      ensures Step(old(Snapshot()), View(e), Snapshot())
    {
      if IsCurrent(e) {
        MoveToFront(e);
      }
    }
  
    predicate IsCurrent(e: Entry)
      reads this
    {
      e in entries && !entries[e].evicted && entries[e].version in versions && versions[entries[e].version] == e
    }

    method ApplyFetchSuccess(e: Entry, a: AuthId, st: AuthState, models: Models)
      requires e in entries
      modifies this`entries
      ensures Snapshot() == Put(old(Snapshot()), e, a, Applied(st, models, clock))
    {
      SetState(e, a, AuthState(
        ModelCatalog.Snapshot(Some(models), clock), Flight(st.flight.foreground, false), Cycle(0, false, 0), st.past));
    }

    /** runForegroundFetch after its fetch. */
    method FinishForeground(c: Call, result: Option<Models>)
      requires c in tasks && tasks[c].Foreground?
      modifies this`entries, this`tasks
      ensures Step(old(Snapshot()), ForegroundResult(c, result), Snapshot())
    {
      var e, a := tasks[c].entry, tasks[c].auth;
      tasks := tasks - {c};
      if !IsCurrent(e) || a !in entries[e].auths {
        return;
      }
      var st := entries[e].auths[a];
      if st.flight.foreground != Some(c) {
        return;
      }
      st := st.(flight := Flight(None, st.flight.background));
      if result.Some? {
        ApplyFetchSuccess(e, a, st, result.value);
      } else if st.flight.background {
        SetState(e, a, st);
      } else {
        SetState(e, a, st.(flight := Flight(None, true)));
        tasks := tasks[c := Retrying(e, a, 1, false)];
      }
    }

    method FinishBackground(e: Entry, a: AuthId, exhausted: bool, healthy: nat)
      modifies this`entries
      ensures Snapshot() == Finished(old(Snapshot()), e, a, exhausted, healthy)
    {
      if !IsCurrent(e) || a !in entries[e].auths {
        return;
      }
      var st := entries[e].auths[a];
      var cycle := st.cycle.(exhausted := exhausted);
      if exhausted {
        cycle := cycle.(generation := healthy);
      }
      SetState(e, a, st.(flight := Flight(st.flight.foreground, false), cycle := cycle));
    }

    /** The end of a pause in runBackgroundFetch. */
    method EndPause(c: Call, canceled: bool)
      requires c in tasks && tasks[c].Retrying? && !tasks[c].fetching
      requires canceled ==> closed || !IsCurrent(tasks[c].entry)
      modifies this`entries, this`tasks
      ensures Step(old(Snapshot()), Pause(c, canceled), Snapshot())
    {
      var task := tasks[c];
      if canceled {
        tasks := tasks - {c};
        FinishBackground(task.entry, task.auth, false, 0);
        return;
      }
      tasks := tasks[c := Retrying(task.entry, task.auth, task.attempt, true)];
      if IsCurrent(task.entry) && task.auth in entries[task.entry].auths {
        var st := entries[task.entry].auths[task.auth];
        SetState(task.entry, task.auth, st.(past := Past(st.past.began, st.past.fetches + 1)));
      }
    }

    /** A retry's result in runBackgroundFetch: applied, tried again, or the end of the cycle. */
    method FinishRetry(c: Call, result: Option<Models>, healthy: nat)
      requires c in tasks && tasks[c].Retrying? && tasks[c].fetching
      modifies this`entries, this`tasks
      ensures Step(old(Snapshot()), BackgroundResult(c, result, healthy), Snapshot())
    {
      var e, a, attempt := tasks[c].entry, tasks[c].auth, tasks[c].attempt;
      if result.Some? {
        tasks := tasks - {c};
        if IsCurrent(e) && a in entries[e].auths {
          ApplyFetchSuccess(e, a, entries[e].auths[a], result.value);
        }
      } else if attempt < BACKGROUND_RETRIES {
        tasks := tasks[c := Retrying(e, a, attempt + 1, false)];
      } else {
        tasks := tasks - {c};
        FinishBackground(e, a, true, healthy);
      }
    }
  }
}

// What runs of session-affinity transactions mean for single sessions: which of several sessions a load
// answers with, what a rebind moves, and what no transaction touches (internal/codexonly/session_affinity.go).

module SessionAffinityRun {
  import opened Wrappers
  import opened SessionAffinity

  // ----- when a session was first bound -----

  /** When each digest's session was first bound: history, not a field of the source. */
  type Births = map<Digest, int>

  function BirthOf(births: Births, d: Digest): int {
    if d in births then births[d] else 0
  }

  /** The live rows that a transaction loads. */
  function LiveLoaded(t: Table, now: int, ds: set<Digest>, bs: set<Digest>): set<Digest> {
    set d | d in Loaded(t, ds, bs) && Live(t[d], now)
  }

  ghost predicate IsFirstBirth(birth: int, keys: set<Digest>, births: Births) {
    && (exists k :: k in keys && BirthOf(births, k) == birth)
    && forall k :: k in keys ==> birth <= BirthOf(births, k)
  }

  lemma {:induction false} FirstBirthExists(keys: set<Digest>, births: Births) returns (first: Digest)
    requires keys != {}
    ensures first in keys && IsFirstBirth(BirthOf(births, first), keys, births)
    decreases |keys|
  {
    var k :| k in keys;
    first := k;
    if keys != {k} {
      var other := FirstBirthExists(keys - {k}, births);
      assert forall j :: j in keys && j != k ==> j in keys - {k};
      if BirthOf(births, other) < BirthOf(births, k) {
        first := other;
      }
    }
  }

  ghost function FirstBirth(keys: set<Digest>, births: Births): (birth: int)
    requires keys != {}
    ensures IsFirstBirth(birth, keys, births)
  {
    assert exists birth :: IsFirstBirth(birth, keys, births) by {
      var k := FirstBirthExists(keys, births);
    }
    var birth :| IsFirstBirth(birth, keys, births); birth
  }

  /** The digests a transaction covers become one session, as old as the oldest of the live ones, or new. */
  ghost function BornTogether(t: Table, now: int, ds: set<Digest>, bs: set<Digest>, births: Births): Births {
    var live := LiveLoaded(t, now, ds, bs);
    var birth := if live == {} then now else FirstBirth(live, births);
    births + map d | d in Rewritten(t, ds, bs) :: birth
  }

  ghost function BirthsAfter(t: Table, now: int, op: Op, births: Births): Births {
    match op
    case Bind(_, ds, _) => BornTogether(t, now, ds, {}, births)
    case Rebind(ds, b, _, _, _) => BornTogether(t, now, ds, {b}, births)
    case Refresh(_, ds) => if LiveLoaded(t, now, ds, {}) == {} then births else BornTogether(t, now, ds, {}, births)
    case Lookup(_, ds) => if LiveLoaded(t, now, ds, {}) == {} then births else BornTogether(t, now, ds, {}, births)
    case _ => births
  }

  /** The births at point `i` of a run; what the run starts with was born when its rows say. */
  ghost function BirthsAt(r: Trace, i: nat): Births
    requires IsRun(r) && i < |r.tables|
  {
    if i == 0 then map d | d in r.tables[0] :: r.tables[0][d].created
    else BirthsAfter(r.tables[i - 1], r.times[i - 1], r.ops[i - 1], BirthsAt(r, i - 1))
  }

  ghost predicate KeepsBirths(t: Table, now: int, births: Births) {
    forall d :: d in t && Live(t[d], now) ==> d in births && t[d].created == births[d]
  }

  lemma NoneLiveNoWinner(t: Table, now: int, ds: set<Digest>, bs: set<Digest>)
    ensures LiveLoaded(t, now, ds, bs) == {} <==> Winner(t, Loaded(t, ds, bs), now).None?
  {
    NoWinnerMeansNoneLive(t, Loaded(t, ds, bs), now);
    if LiveLoaded(t, now, ds, bs) == {} {
      assert forall k :: k in Loaded(t, ds, bs) && Live(t[k], now) ==> k in LiveLoaded(t, now, ds, bs);
    }
  }

  /** The winner of a load is as old as the oldest live row in it. */
  lemma WinnerIsFirstBorn(t: Table, now: int, ds: set<Digest>, bs: set<Digest>, births: Births)
    requires KeepsBirths(t, now, births)
    ensures var w := Winner(t, Loaded(t, ds, bs), now);
      var live := LiveLoaded(t, now, ds, bs);
      && (w.None? <==> live == {})
      && (w.Some? ==> w.value in live && t[w.value].created == FirstBirth(live, births))
  {
    NoneLiveNoWinner(t, now, ds, bs);
    var w, live := Winner(t, Loaded(t, ds, bs), now), LiveLoaded(t, now, ds, bs);
    if w.Some? {
      assert w.value in live;
      var first :| first in live && BirthOf(births, first) == FirstBirth(live, births);
      assert t[w.value].created <= t[first].created;
    }
  }

  lemma WriteKeepsBirths(t: Table, now: int, ds: set<Digest>, bs: set<Digest>, births: Births, row: Row)
    requires KeepsBirths(t, now, births)
    requires match Winner(t, Loaded(t, ds, bs), now)
      case None => row.created == now
      case Some(w) => row.created == t[w].created
    ensures KeepsBirths(WriteAll(t, Rewritten(t, ds, bs), row), now, BornTogether(t, now, ds, bs, births))
  {
    WinnerIsFirstBorn(t, now, ds, bs, births);
  }

  /** A lookup with nothing to write leaves a session that is of one age already. */
  lemma UnwrittenKeepsBirths(t: Table, now: int, tenant: Digest, ds: set<Digest>, births: Births)
    requires Inv(t, now) && ds != {} && KeepsBirths(t, now, births) && LiveLoaded(t, now, ds, {}) != {}
    requires var w := Winner(t, Loaded(t, ds, {}), now);
      w.Some? && !NeedsWrite(t, tenant, ds, WithTenant(t[w.value], tenant), now)
    ensures KeepsBirths(t, now, BornTogether(t, now, ds, {}, births))
  {
    WinnerIsFirstBorn(t, now, ds, {}, births);
    var w := Winner(t, Loaded(t, ds, {}), now).value;
    assert Bindings(t, ds) <= {t[w].binding};
    forall d | d in Rewritten(t, ds, {}) && d in t && Live(t[d], now)
      ensures t[d].created == t[w].created
    {
      assert t[d].binding == t[w].binding;
      GroupMembersAgree(t, now, d, w);
    }
  }

  lemma StepKeepsBirths(t: Table, now: int, op: Op, t': Table, now': int, births: Births)
    requires Inv(t, now) && now > 0 && StepsTo(t, now, op, t', now') && KeepsBirths(t, now, births)
    ensures KeepsBirths(t', now', BirthsAfter(t, now, op, births))
  {
    match op
    case Bind(tenant, ds, candidate) => WriteKeepsBirths(t, now, ds, {}, births, BindRow(t, tenant, ds, candidate, now));
    case Rebind(ds, b, tenant, expected, candidate) =>
      WriteKeepsBirths(t, now, ds, {b}, births, RebindRow(t, ds, b, tenant, expected, candidate, now));
    case Refresh(tenant, ds) => RefreshKeepsBirths(t, now, tenant, ds, births);
    case Lookup(tenant, ds) =>
      if LiveLoaded(t, now, ds, {}) == {} {
        NoneLiveNoWinner(t, now, ds, {});
      } else {
        LookupKeepsBirths(t, now, tenant, ds, births);
      }
    case _ =>
  }

  lemma RefreshKeepsBirths(t: Table, now: int, tenant: Digest, ds: set<Digest>, births: Births)
    requires Inv(t, now) && now > 0 && ds != {} && KeepsBirths(t, now, births)
    ensures KeepsBirths(RefreshTable(t, tenant, ds, now), now, BirthsAfter(t, now, Refresh(tenant, ds), births))
  {
    WinnerIsFirstBorn(t, now, ds, {}, births);
    var row := RefreshRow(t, tenant, ds, now);
    if row.Some? {
      WriteKeepsBirths(t, now, ds, {}, births, row.value);
    }
  }

  lemma LookupKeepsBirths(t: Table, now: int, tenant: Digest, ds: set<Digest>, births: Births)
    requires Inv(t, now) && now > 0 && ds != {} && KeepsBirths(t, now, births) && LiveLoaded(t, now, ds, {}) != {}
    ensures KeepsBirths(LookupTable(t, tenant, ds, now), now, BornTogether(t, now, ds, {}, births))
  {
    WinnerIsFirstBorn(t, now, ds, {}, births);
    var w := Winner(t, Loaded(t, ds, {}), now).value;
    if NeedsWrite(t, tenant, ds, WithTenant(t[w], tenant), now) {
      RefreshKeepsBirths(t, now, tenant, ds, births);
    } else {
      UnwrittenKeepsBirths(t, now, tenant, ds, births);
    }
  }

  lemma RunStep(r: Trace, i: nat)
    requires IsRun(r) && i < |r.ops|
    ensures StepsTo(r.tables[i], r.times[i], r.ops[i], r.tables[i + 1], r.times[i + 1])
    ensures BirthsAt(r, i + 1) == BirthsAfter(r.tables[i], r.times[i], r.ops[i], BirthsAt(r, i))
  {
    assert StepAt(r, i);
  }

  lemma BirthsStep(r: Trace, i: nat, births: Births)
    requires IsRun(r) && i < |r.ops| && Inv(r.tables[i], r.times[i]) && r.times[i] > 0
    requires births == BirthsAt(r, i) && KeepsBirths(r.tables[i], r.times[i], births)
    ensures KeepsBirths(r.tables[i + 1], r.times[i + 1], BirthsAt(r, i + 1))
  {
    RunStep(r, i);
    StepKeepsBirths(r.tables[i], r.times[i], r.ops[i], r.tables[i + 1], r.times[i + 1], births);
  }

  /** Over every run, a live row was created when its session was first bound. */
  lemma {:induction false} CreatedIsFirstBind(r: Trace, i: nat)
    requires IsRun(r) && i < |r.tables| && Inv(r.tables[0], r.times[0])
    ensures KeepsBirths(r.tables[i], r.times[i], BirthsAt(r, i))
  {
    if i > 0 {
      CreatedIsFirstBind(r, i - 1);
      RunKeepsInv(r, i - 1);
      BirthsStep(r, i - 1, BirthsAt(r, i - 1));
    }
  }

  /** Step `k` of the run binds digests of which nothing that it loads is live. */
  ghost predicate OpensSession(r: Trace, k: nat)
    requires k < |r.ops| && |r.tables| == |r.times| == |r.ops| + 1
  {
    match r.ops[k]
    case Bind(_, ds, _) => LiveLoaded(r.tables[k], r.times[k], ds, {}) == {}
    case Rebind(ds, b, _, _, _) => LiveLoaded(r.tables[k], r.times[k], ds, {b}) == {}
    case _ => false
  }

  /** The time is that of a bind before point `i`, or the age of a row the run starts with. */
  ghost predicate IsBindTime(r: Trace, i: nat, time: int)
    requires i < |r.tables| && |r.tables| == |r.times| == |r.ops| + 1
  {
    || (exists k :: 0 <= k < i && OpensSession(r, k) && r.times[k] == time)
    || (exists d :: d in r.tables[0] && r.tables[0][d].created == time)
  }

  /** The digests and bindings that a transaction loads by. */
  function LoadsBy(op: Op): Option<(set<Digest>, set<Digest>)> {
    match op
    case Bind(_, ds, _) => Some((ds, {}))
    case Rebind(ds, b, _, _, _) => Some((ds, {b}))
    case Refresh(_, ds) => Some((ds, {}))
    case Lookup(_, ds) => Some((ds, {}))
    case _ => None
  }

  lemma UnloadedRowIsKept(t: Table, now: int, op: Op, d: Digest)
    requires Admissible(op) && d in Apply(t, now, op)
    requires LoadsBy(op).Some? ==> d !in Rewritten(t, LoadsBy(op).value.0, LoadsBy(op).value.1)
    ensures d in t && Apply(t, now, op)[d] == t[d]
  {
  }

  /** A row that is live after a step has its birth from a row that was live before it, or the step opened its session. */
  ghost predicate HasSource(t: Table, now: int, op: Op, births: Births, d: Digest) {
    var after := BirthsAfter(t, now, op, births);
    d in after &&
    if LoadsBy(op).Some? && d in Rewritten(t, LoadsBy(op).value.0, LoadsBy(op).value.1) then
      var live := LiveLoaded(t, now, LoadsBy(op).value.0, LoadsBy(op).value.1);
      if live == {} then (op.Bind? || op.Rebind?) && after[d] == now
      else IsFirstBirth(after[d], live, births)
    else d in t && Live(t[d], now) && d in births && after[d] == births[d]
  }

  lemma LiveRowHasSource(t: Table, now: int, op: Op, births: Births, d: Digest)
    requires Inv(t, now) && now > 0 && Admissible(op) && KeepsBirths(t, now, births)
    requires d in Apply(t, now, op) && Live(Apply(t, now, op)[d], now)
    ensures HasSource(t, now, op, births, d)
  {
    if LoadsBy(op).None? || d !in Rewritten(t, LoadsBy(op).value.0, LoadsBy(op).value.1) {
      UnloadedRowIsKept(t, now, op, d);
    } else {
      var (ds, bs) := LoadsBy(op).value;
      if LiveLoaded(t, now, ds, bs) == {} && !op.Bind? && !op.Rebind? {
        WinnerIsFirstBorn(t, now, ds, bs, births);
        assert d in ds || d in Loaded(t, ds, bs);
        assert d !in LiveLoaded(t, now, ds, bs);
        LiveRequestIsLoaded(t, now, ds, bs, d);
      }
    }
  }

  lemma LiveRequestIsLoaded(t: Table, now: int, ds: set<Digest>, bs: set<Digest>, d: Digest)
    requires d in Rewritten(t, ds, bs) && d in t && Live(t[d], now)
    ensures d in LiveLoaded(t, now, ds, bs)
  {
  }

  /** Every birth is the time of a bind that found nothing live, or the age of a row the run starts with. */
  lemma {:induction false} BirthsAreBindTimes(r: Trace, i: nat, d: Digest)
    requires IsRun(r) && i < |r.tables| && Inv(r.tables[0], r.times[0])
    requires d in r.tables[i] && Live(r.tables[i][d], r.times[i])
    ensures IsBindTime(r, i, BirthOf(BirthsAt(r, i), d))
  {
    if i == 0 {
      assert r.tables[0][d].created == BirthOf(BirthsAt(r, 0), d);
    } else {
      var e := SourceAt(r, i - 1, d);
      if e.Some? {
        BirthsAreBindTimes(r, i - 1, e.value);
        BindTimeStays(r, i - 1, BirthOf(BirthsAt(r, i - 1), e.value));
      }
    }
  }

  lemma SourceAt(r: Trace, i: nat, d: Digest) returns (e: Option<Digest>)
    requires IsRun(r) && i < |r.ops| && Inv(r.tables[0], r.times[0])
    requires d in r.tables[i + 1] && Live(r.tables[i + 1][d], r.times[i + 1])
    ensures match e
      case Some(k) =>
        && k in r.tables[i] && Live(r.tables[i][k], r.times[i])
        && BirthOf(BirthsAt(r, i), k) == BirthOf(BirthsAt(r, i + 1), d)
      case None => IsBindTime(r, i + 1, BirthOf(BirthsAt(r, i + 1), d))
  {
    RunStep(r, i);
    CreatedIsFirstBind(r, i);
    RunKeepsInv(r, i);
    LiveRowHasSource(r.tables[i], r.times[i], r.ops[i], BirthsAt(r, i), d);
    e := SourceOf(r.tables[i], r.times[i], r.ops[i], BirthsAt(r, i), d);
    if e.None? {
      assert OpensSession(r, i);
    }
  }

  lemma SourceOf(t: Table, now: int, op: Op, births: Births, d: Digest) returns (e: Option<Digest>)
    requires HasSource(t, now, op, births, d)
    ensures var birth := BirthOf(BirthsAfter(t, now, op, births), d);
      match e
      case Some(k) => k in t && Live(t[k], now) && BirthOf(births, k) == birth
      case None =>
        && (op.Bind? || op.Rebind?) && birth == now
        && LiveLoaded(t, now, LoadsBy(op).value.0, LoadsBy(op).value.1) == {}
  {
    e := None;
    if LoadsBy(op).Some? && d in Rewritten(t, LoadsBy(op).value.0, LoadsBy(op).value.1) {
      var live := LiveLoaded(t, now, LoadsBy(op).value.0, LoadsBy(op).value.1);
      if live != {} {
        var k :| k in live && BirthOf(births, k) == BirthOf(BirthsAfter(t, now, op, births), d);
        e := Some(k);
      }
    } else {
      e := Some(d);
    }
  }

  lemma BindTimeStays(r: Trace, i: nat, time: int)
    requires IsRun(r) && i + 1 < |r.tables| && IsBindTime(r, i, time)
    ensures IsBindTime(r, i + 1, time)
  {
  }

  // ----- which session a load answers with -----

  /** Of all live rows that a transaction loads, `w`'s session was bound first. */
  ghost predicate BoundFirst(t: Table, now: int, ds: set<Digest>, bs: set<Digest>, births: Births, w: Digest) {
    && w in LiveLoaded(t, now, ds, bs)
    && forall k :: k in LiveLoaded(t, now, ds, bs) && t[k].binding != t[w].binding ==> BirthOf(births, w) < BirthOf(births, k)
  }

  lemma FirstBoundWins(t: Table, now: int, ds: set<Digest>, bs: set<Digest>, births: Births, w: Digest)
    requires Inv(t, now) && KeepsBirths(t, now, births) && BoundFirst(t, now, ds, bs, births, w)
    ensures var v := Winner(t, Loaded(t, ds, bs), now); v.Some? && t[v.value].auth == t[w].auth
  {
    NoWinnerMeansNoneLive(t, Loaded(t, ds, bs), now);
    var v := Winner(t, Loaded(t, ds, bs), now).value;
    assert v in LiveLoaded(t, now, ds, bs) && t[v].created <= t[w].created;
    GroupMembersAgree(t, now, v, w);
  }

  /** The auth that a transaction moves a session on `auth` to. */
  function MovedTo(op: Op, auth: AuthId): AuthId {
    if op.Rebind? && op.expected == auth then op.candidate else auth
  }

  /**
   * Over every run, a lookup, refresh, bind or rebind that loads several live sessions leaves all requested
   * digests in one session on the auth of the one that was bound first; a rebind from that auth moves it to the candidate.
   */
  lemma FirstBindDecides(r: Trace, i: nat, w: Digest)
    requires IsRun(r) && i < |r.ops| && Inv(r.tables[0], r.times[0]) && LoadsBy(r.ops[i]).Some?
    requires var (ds, bs) := LoadsBy(r.ops[i]).value;
      BoundFirst(r.tables[i], r.times[i], ds, bs, BirthsAt(r, i), w)
    ensures Session(r.tables[i + 1], r.times[i + 1], LoadsBy(r.ops[i]).value.0, MovedTo(r.ops[i], r.tables[i][w].auth))
  {
    var t, now, op := r.tables[i], r.times[i], r.ops[i];
    var (ds, bs) := LoadsBy(op).value;
    RunKeepsInv(r, i);
    CreatedIsFirstBind(r, i);
    FirstBoundWins(t, now, ds, bs, BirthsAt(r, i), w);
    assert StepAt(r, i);
    WinnerDecides(t, now, op);
  }

  lemma WinnerDecides(t: Table, now: int, op: Op)
    requires Inv(t, now) && now > 0 && Admissible(op) && LoadsBy(op).Some?
    requires var (ds, bs) := LoadsBy(op).value; Winner(t, Loaded(t, ds, bs), now).Some?
    ensures var (ds, bs) := LoadsBy(op).value;
      Session(Apply(t, now, op), now, ds, MovedTo(op, t[Winner(t, Loaded(t, ds, bs), now).value].auth))
  {
    match op
    case Bind(tenant, ds, candidate) =>
      WrittenSession(t, now, ds, Rewritten(t, ds, {}), BindRow(t, tenant, ds, candidate, now));
    case Rebind(ds, b, tenant, expected, candidate) =>
      WrittenSession(t, now, ds, Rewritten(t, ds, {b}), RebindRow(t, ds, b, tenant, expected, candidate, now));
    case Refresh(tenant, ds) => RefreshDecides(t, now, tenant, ds);
    case Lookup(tenant, ds) => RefreshDecides(t, now, tenant, ds);
  }

  lemma RefreshDecides(t: Table, now: int, tenant: Digest, ds: set<Digest>)
    requires Inv(t, now) && now > 0 && ds != {} && Winner(t, Loaded(t, ds, {}), now).Some?
    ensures var auth := t[Winner(t, Loaded(t, ds, {}), now).value].auth;
      Session(RefreshTable(t, tenant, ds, now), now, ds, auth) && Session(LookupTable(t, tenant, ds, now), now, ds, auth)
  {
    WrittenSession(t, now, ds, Rewritten(t, ds, {}), RefreshRow(t, tenant, ds, now).value);
  }

  // ----- what one transaction does to a session -----

  /** Binding or rebinding digests of which nothing loaded is live opens a session on the candidate. */
  lemma OpenedSessionIsNew(t: Table, now: int, op: Op)
    requires Inv(t, now) && now > 0 && Admissible(op) && (op.Bind? || op.Rebind?)
    requires LiveLoaded(t, now, LoadsBy(op).value.0, LoadsBy(op).value.1) == {}
    ensures var t' := Apply(t, now, op);
      && Session(t', now, op.digests, op.candidate)
      && forall d :: d in op.digests ==>
           t'[d].created == now && t'[d].expires == now + EXPIRY && t'[d].tenant == op.tenant
  {
    var (ds, bs) := LoadsBy(op).value;
    NoneLiveNoWinner(t, now, ds, bs);
    var row := if op.Bind? then BindRow(t, op.tenant, ds, op.candidate, now)
      else RebindRow(t, ds, op.binding, op.tenant, op.expected, op.candidate, now);
    WrittenSession(t, now, ds, Rewritten(t, ds, bs), row);
  }

  lemma WholeSessionIsLoaded(
    t: Table, now: int, session: set<Digest>, auth: AuthId, ds: set<Digest>, bs: set<Digest>)
    requires Inv(t, now) && Session(t, now, session, auth) && ds != {} && ds <= session
    ensures session <= Loaded(t, ds, bs) && AllWellFormed(ds)
  {
    var first :| first in ds;
    assert t[first].binding in Bindings(t, ds);
  }

  /** Rebinding a session away from its auth moves all of it to the candidate and leaves it as old as it was. */
  lemma OwnRebindMovesSession(
    t: Table, now: int, session: set<Digest>, auth: AuthId, ds: set<Digest>, b: Digest, tenant: Digest,
    candidate: AuthId)
    requires Inv(t, now) && now > 0 && Session(t, now, session, auth) && ds != {} && ds <= session && b in session
    requires IsAuthId(candidate)
    ensures Admissible(Rebind(ds, b, tenant, auth, candidate))
    ensures var t' := Apply(t, now, Rebind(ds, b, tenant, auth, candidate));
      && Session(t', now, session, candidate)
      && forall d :: d in session ==> SameOrigin(t[d], t'[d]) && t'[d].expires == now + EXPIRY
  {
    OwnLoadWins(t, now, session, auth, ds, {b});
    WholeSessionIsLoaded(t, now, session, auth, ds, {b});
    WrittenSession(t, now, session, Rewritten(t, ds, {b}), RebindRow(t, ds, b, tenant, auth, candidate, now));
  }

  /** A session that is renewed, complete and of the right tenant is not written by a lookup. */
  lemma FreshLookupWritesNothing(
    t: Table, now: int, session: set<Digest>, auth: AuthId, tenant: Digest, ds: set<Digest>)
    requires Inv(t, now) && now > 0 && Session(t, now, session, auth) && ds != {} && ds <= session
    requires forall d :: d in session ==> t[d].updated + RENEWAL_THRESHOLD > now && (tenant == "" || t[d].tenant == tenant)
    ensures LookupTable(t, tenant, ds, now) == t
  {
    OwnLoadWins(t, now, session, auth, ds, {});
    var first :| first in ds;
    var row := t[Winner(t, Loaded(t, ds, {}), now).value];
    assert row == t[first] && WithTenant(row, tenant) == row;
    assert !NeedsWrite(t, tenant, ds, row, now);
  }

  /** A lookup names the tenant in a session that has none yet. */
  lemma LookupNamesTenant(t: Table, now: int, session: set<Digest>, auth: AuthId, tenant: Digest, ds: set<Digest>)
    requires Inv(t, now) && now > 0 && Session(t, now, session, auth) && ds != {} && ds <= session
    requires tenant != "" && forall d :: d in session ==> t[d].tenant == ""
    ensures var t' := LookupTable(t, tenant, ds, now);
      Session(t', now, session, auth) && forall d :: d in session ==> t'[d].tenant == tenant
  {
    OwnLoadWins(t, now, session, auth, ds, {});
    WholeSessionIsLoaded(t, now, session, auth, ds, {});
    var first :| first in ds;
    assert NeedsWrite(t, tenant, ds, WithTenant(t[Winner(t, Loaded(t, ds, {}), now).value], tenant), now);
    WrittenSession(t, now, session, Rewritten(t, ds, {}), RefreshRow(t, tenant, ds, now).value);
  }

  /** A transaction touches no group of which it requests neither a digest nor the binding. */
  lemma OtherGroupsAreLeftAlone(t: Table, now: int, op: Op, d: Digest)
    requires Admissible(op) && LoadsBy(op).Some? && d in t
    requires var (ds, bs) := LoadsBy(op).value;
      d !in ds && t[d].binding !in bs && forall e :: e in ds && e in t ==> t[e].binding != t[d].binding
    ensures var t' := Apply(t, now, op); d in t' && t'[d] == t[d]
  {
  }

  // ----- what deletes leave behind -----

  ghost predicate Untouched(t: Table, t': Table, session: set<Digest>) {
    forall d :: d in session ==> d in t && d in t' && t'[d] == t[d]
  }

  ghost predicate IsGone(t': Table, session: set<Digest>) {
    forall d :: d in session ==> d !in t'
  }

  /** The tenant of a session, which all of its rows name. */
  ghost function TenantOf(t: Table, session: set<Digest>): Digest
    requires session != {} && session <= t.Keys
  {
    t[AnyOf(session)].tenant
  }

  /** Deleting by auth takes the sessions on the auths whole, and leaves all others as they are. */
  lemma AuthDeletesTakeSessions(t: Table, now: int, auths: set<AuthId>, session: set<Digest>, auth: AuthId)
    requires Inv(t, now) && Session(t, now, session, auth)
    ensures var t' := Apply(t, now, DeleteByAuths(auths));
      if auth in auths then IsGone(t', session) else Untouched(t, t', session)
    ensures var t' := Apply(t, now, DeleteExceptAuths(auths));
      if auth in auths then Untouched(t, t', session) else IsGone(t', session)
  {
  }

  /** Deleting by tenant takes the tenant's sessions, and of one session those of its groups only. */
  lemma TenantDeletesTakeSessions(
    t: Table, now: int, tenant: Digest, ds: set<Digest>, session: set<Digest>, auth: AuthId)
    requires Inv(t, now) && Session(t, now, session, auth)
    ensures var t' := Apply(t, now, DeleteByTenant(tenant));
      if TenantOf(t, session) == tenant then IsGone(t', session) else Untouched(t, t', session)
    ensures var t' := Apply(t, now, DeleteByTenantSession(tenant, ds));
      && (TenantOf(t, session) == tenant && session * ds != {} ==> IsGone(t', session))
      && (TenantOf(t, session) != tenant ==> Untouched(t, t', session))
      && ((forall e :: e in ds && e in t ==> t[e].binding != t[AnyOf(session)].binding) ==> Untouched(t, t', session))
  {
    var one := AnyOf(session);
    forall d | d in session
      ensures t[d].tenant == TenantOf(t, session)
    {
      GroupMembersAgree(t, now, d, one);
    }
    if TenantOf(t, session) == tenant && session * ds != {} {
      var d :| d in session * ds;
      assert t[d].tenant == tenant && t[d].binding == t[one].binding;
    }
  }

  /** Cleaning up takes no live session. */
  lemma CleanupTakesNoSession(t: Table, now: int, batch: set<Digest>, session: set<Digest>, auth: AuthId)
    requires Session(t, now, session, auth)
    ensures Untouched(t, Apply(t, now, Cleanup(batch)), session)
  {
  }
}

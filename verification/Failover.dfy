// executeUpstream: one request against the selection, the auths and upstream
// (internal/codexonly/failover.go).

module Failover {
  import opened Wrappers
  import opened FailoverLog
  import AuthHealth

  /** The three retry settings; the interval is in seconds. */
  datatype Config = Config(requestRetry: int, maxCredentials: int, maxInterval: int)

  datatype Block = Block(kind: AuthHealth.Kind, retryAt: int)

  /** One configured auth as a reconcile and the health registry show it. */
  datatype View = View(id: AuthId, active: bool, disabled: bool, blocked: Option<Block>)

  datatype FinalError = ModelNotFound | AuthUnavailable | RateLimited(retryAt: int) | UpstreamUnavailable

  /** `attempt` numbers the attempt whose response is passed on. */
  datatype Result = Served(auth: AuthId, attempt: nat) | Refused(error: FinalError) | Aborted

  datatype Pick = Picked(auth: AuthId) | Nobody | SelectFailed

  function MaxWait(config: Config): int {
    config.maxInterval * SECOND
  }

  function Rounds(config: Config): nat {
    if config.requestRetry > 0 then config.requestRetry + 1 else 1
  }

  /** How many of the allowed auths one round may try. */
  function PerRound(config: Config, allowed: set<AuthId>): nat {
    if 0 < config.maxCredentials < |allowed| then config.maxCredentials else |allowed|
  }

  ghost predicate Ruled(log: seq<Event>, config: Config, allowed: set<AuthId>, replayable: bool) {
    && IsLog(log, replayable)
    && DistinctInRounds(log)
    && PicksAllowed(log, allowed)
    && WaitsEndRounds(log, config.maxCredentials)
    && WaitsWithin(log, MaxWait(config))
  }

  ghost predicate MayFollow(
    log: seq<Event>, e: Event, config: Config, allowed: set<AuthId>, replayable: bool)
  {
    && (if |log| == 0 then MayBegin(e) else Follows(log[|log| - 1], e, replayable))
    && (e.Selected? && e.eligible ==> e.auth in allowed - RoundTried(log))
    && (e.Waited? ==> RoundIsOver(log, config.maxCredentials) && 0 <= e.delay <= MaxWait(config))
  }

  lemma RuledGrows(log: seq<Event>, e: Event, config: Config, allowed: set<AuthId>, replayable: bool)
    requires Ruled(log, config, allowed, replayable) && MayFollow(log, e, config, allowed, replayable)
    ensures Ruled(log + [e], config, allowed, replayable)
  {
    LogGrows(log, e, replayable);
    DistinctGrows(log, e);
    PicksGrow(log, e, allowed);
    WaitsGrow(log, e, config.maxCredentials);
    WaitsGrowWithin(log, e, MaxWait(config));
  }

  /**
   * The budgets of one request. A stray is a candidate that another request's rebind put in place of an
   * eligible one; without such interference there are none.
   */
  ghost predicate WithinBudgets(log: seq<Event>, config: Config, allowed: set<AuthId>, replayable: bool) {
    var rounds := if replayable then Rounds(config) else 1;
    var longest := if config.maxInterval > 0 then MaxWait(config) else 0;
    && BudgetSoFar(Count(log, Picks), Count(log, Strays), config, allowed, rounds)
    && Count(log, Attempts) <= 2 * (rounds * PerRound(config, allowed) + Count(log, Strays))
    && (!replayable ==> Count(log, Attempts) <= 1 && Count(log, Refreshes) == 0)
    && Count(log, Waits) <= rounds - 1
    && 0 <= TimeWaited(log) <= (rounds - 1) * longest
  }

  predicate BudgetSoFar(picks: nat, strays: nat, config: Config, allowed: set<AuthId>, rounds: nat) {
    && picks <= rounds * PerRound(config, allowed)
    && (config.maxCredentials > 0 ==> picks + strays <= rounds * config.maxCredentials)
  }

  /** The response passed on is the last one, from the auth it is passed on with. */
  ghost predicate ServedBy(log: seq<Event>, replayable: bool, auth: AuthId, attempt: nat) {
    var n := |log| - 1;
    && Count(log, Attempts) == attempt
    && if n >= 0 && log[n].Attempted? then
         log[n].auth == auth && log[n].answer.Response? && log[n].answer.id == attempt
         && log[n].answer.failure.kind.RequestScoped?
       else
         && n > 0 && (log[n] == Healed(auth) || (!replayable && log[n].Blamed? && log[n].auth == auth))
         && log[n - 1].Attempted? && log[n - 1].auth == auth
         && log[n - 1].answer.Response? && log[n - 1].answer.id == attempt
  }

  // ----- the error a request ends with -----

  datatype Verdict = ModelBlocked | Disabled | CredentialBlocked | QuotaBlocked(retryAt: int) | TransientBlocked | Free

  function KindOf(f: UpstreamFailure): Option<AuthHealth.Kind> {
    match f.kind
    case ModelUnsupported => Some(AuthHealth.ModelUnsupported)
    case Quota => Some(AuthHealth.Quota)
    case Unauthorized => Some(AuthHealth.Unauthorized)
    case Credential => Some(AuthHealth.CredentialInvalid)
    case Transient => Some(AuthHealth.Transient)
    case _ => None
  }

  function BlockOf(v: View, blame: map<AuthId, UpstreamFailure>): Option<Block> {
    if v.blocked.Some? then v.blocked
    else if v.id in blame && KindOf(blame[v.id]).Some? then
      Some(Block(KindOf(blame[v.id]).value, blame[v.id].retryAt))
    else None
  }

  function VerdictOn(v: View, blame: map<AuthId, UpstreamFailure>): Verdict {
    var block := BlockOf(v, blame);
    if block.Some? && block.value.kind.ModelUnsupported? then ModelBlocked
    else if v.disabled then Disabled
    else if block.None? then Free
    else
      match block.value.kind
      case Quota => QuotaBlocked(block.value.retryAt)
      case Transient => TransientBlocked
      case _ => CredentialBlocked
  }

  /** The verdicts on the auths that the request was allowed to use, in configuration order. */
  function Verdicts(
    views: seq<View>, allowed: set<AuthId>, blame: map<AuthId, UpstreamFailure>): (vs: seq<Verdict>)
    ensures |vs| <= |views|
  {
    if views == [] then []
    else
      var last := views[|views| - 1];
      Verdicts(views[..|views| - 1], allowed, blame) + if last.id in allowed then [VerdictOn(last, blame)] else []
  }

  ghost predicate IsEarliest(t: int, vs: seq<Verdict>) {
    if t == 0 then forall v :: v in vs && v.QuotaBlocked? ==> v.retryAt == 0
    else QuotaBlocked(t) in vs && forall v :: v in vs && v.QuotaBlocked? && v.retryAt != 0 ==> t <= v.retryAt
  }

  predicate Unusable(v: Verdict) {
    v.Disabled? || v.CredentialBlocked?
  }

  ghost predicate IsFinalError(error: FinalError, vs: seq<Verdict>, config: Config, now: int) {
    var quota := exists v :: v in vs && v.QuotaBlocked?;
    var transient := TransientBlocked in vs;
    if vs != [] && forall v :: v in vs ==> v.ModelBlocked? then error == ModelNotFound
    else if forall v :: v in vs ==> Unusable(v) then error == AuthUnavailable
    else if quota && !transient then error.RateLimited? && IsEarliest(error.retryAt, vs)
    else
      match error
      case RateLimited(t) => quota && IsEarliest(t, vs) && t != 0 && MaxWait(config) > 0 && t - now <= MaxWait(config)
      case UpstreamUnavailable =>
        quota ==> forall t :: IsEarliest(t, vs) ==> t == 0 || MaxWait(config) <= 0 || t - now > MaxWait(config)
      case _ => false
  }

  datatype Counts = Counts(total: nat, model: nat, disabled: nat, credential: nat, cooling: CoolingCounts)

  datatype CoolingCounts = CoolingCounts(quota: nat, transient: nat, earliestQuota: int)

  /** The counters of finalProxyError after the auths with verdicts `vs`. */
  ghost predicate IsCount(c: Counts, vs: seq<Verdict>) {
    && c.total == |vs|
    && (c.model == 0 <==> ModelBlocked !in vs)
    && (c.disabled == 0 <==> Disabled !in vs)
    && (c.credential == 0 <==> CredentialBlocked !in vs)
    && (c.cooling.quota == 0 <==> forall v :: v in vs ==> !v.QuotaBlocked?)
    && (c.cooling.transient == 0 <==> TransientBlocked !in vs)
    && IsEarliest(c.cooling.earliestQuota, vs)
    && (var free := c.total - c.model - c.disabled - c.credential - c.cooling.quota - c.cooling.transient;
        free >= 0 && (free == 0 <==> Free !in vs))
  }

  function CountedWith(c: Counts, v: Verdict): Counts {
    var d := c.(total := c.total + 1);
    match v
    case ModelBlocked => d.(model := c.model + 1)
    case Disabled => d.(disabled := c.disabled + 1)
    case CredentialBlocked => d.(credential := c.credential + 1)
    case QuotaBlocked(t) =>
      var earliest := c.cooling.earliestQuota;
      d.(cooling := c.cooling.(
           quota := c.cooling.quota + 1,
           earliestQuota := if t != 0 && (earliest == 0 || t < earliest) then t else earliest))
    case TransientBlocked => d.(cooling := c.cooling.(transient := c.cooling.transient + 1))
    case Free => d
  }

  lemma CountGrows(c: Counts, vs: seq<Verdict>, v: Verdict)
    requires IsCount(c, vs)
    ensures IsCount(CountedWith(c, v), vs + [v])
  {
    assert v in vs + [v];
    assert forall w :: w in vs + [v] <==> w in vs || w == v;
  }

  method CountAuth(counts: Counts, view: View, aggregate: map<AuthId, UpstreamFailure>) returns (c: Counts)
    ensures c == CountedWith(counts, VerdictOn(view, aggregate))
  {
    c := counts.(total := counts.total + 1);
    var state := view.blocked;
    if state.None? && view.id in aggregate {
      var kind := KindOf(aggregate[view.id]);
      state := if kind.Some? then Some(Block(kind.value, aggregate[view.id].retryAt)) else None;
    }
    if state.Some? && state.value.kind.ModelUnsupported? {
      return c.(model := c.model + 1);
    }
    if view.disabled {
      return c.(disabled := c.disabled + 1);
    }
    if state.None? {
      return;
    }
    if state.value.kind.Quota? {
      c := c.(cooling := c.cooling.(quota := c.cooling.quota + 1));
      var retryAt := state.value.retryAt;
      if retryAt != 0 && (c.cooling.earliestQuota == 0 || retryAt < c.cooling.earliestQuota) {
        c := c.(cooling := c.cooling.(earliestQuota := retryAt));
      }
    } else if state.value.kind.Transient? {
      c := c.(cooling := c.cooling.(transient := c.cooling.transient + 1));
    } else {
      c := c.(credential := c.credential + 1);
    }
  }

  lemma EarliestIsUnique(vs: seq<Verdict>, t: int)
    requires IsEarliest(t, vs)
    ensures forall u :: IsEarliest(u, vs) ==> u == t
  {
  }

  /** The counters leave no choice: a request that failed this way ends with this one error. */
  lemma FinalErrorIsUnique(e: FinalError, f: FinalError, vs: seq<Verdict>, config: Config, now: int)
    requires IsFinalError(e, vs, config, now) && IsFinalError(f, vs, config, now)
    ensures e == f
  {
    if e.RateLimited? {
      EarliestIsUnique(vs, e.retryAt);
    }
  }

  method ErrorFor(c: Counts, config: Config, now: int, ghost vs: seq<Verdict>) returns (error: FinalError)
    requires IsCount(c, vs)
    ensures IsFinalError(error, vs, config, now)
  {
    EarliestIsUnique(vs, c.cooling.earliestQuota);
    assert vs != [] ==> vs[0] in vs;
    if c.total > 0 && c.model == c.total {
      return ModelNotFound;
    }
    if c.total == 0 || c.disabled + c.credential == c.total {
      return AuthUnavailable;
    }
    var serviceable := c.cooling.quota + c.cooling.transient;
    if serviceable > 0 && c.cooling.quota == serviceable {
      return RateLimited(c.cooling.earliestQuota);
    }
    if c.cooling.quota > 0 && c.cooling.transient > 0 && c.cooling.earliestQuota != 0 {
      if MaxWait(config) > 0 && c.cooling.earliestQuota - now <= MaxWait(config) {
        return RateLimited(c.cooling.earliestQuota);
      }
    }
    return UpstreamUnavailable;
  }

  method FinalProxyError(
    views: seq<View>, allowed: set<AuthId>, aggregate: map<AuthId, UpstreamFailure>, config: Config, now: int)
    returns (error: FinalError)
    ensures IsFinalError(error, Verdicts(views, allowed, aggregate), config, now)
  {
    var counts := Counts(0, 0, 0, 0, CoolingCounts(0, 0, 0));
    for i := 0 to |views|
      invariant IsCount(counts, Verdicts(views[..i], allowed, aggregate))
    {
      assert views[..i + 1][..i] == views[..i];
      if views[i].id !in allowed {
        continue;
      }
      CountGrows(counts, Verdicts(views[..i], allowed, aggregate), VerdictOn(views[i], aggregate));
      counts := CountAuth(counts, views[i], aggregate);
    }
    assert views[..|views|] == views;
    error := ErrorFor(counts, config, now, Verdicts(views, allowed, aggregate));
  }

  // ----- when to try again -----

  predicate Cooling(v: View, allowed: set<AuthId>, now: int) {
    v.active && v.id in allowed && v.blocked.Some? && v.blocked.value.retryAt != 0 && v.blocked.value.retryAt > now
  }

  function NotBefore(t: int, now: int): int {
    if t < now then now else t
  }

  /** `deadline` comes at or before the cooldowns of the first `n` auths. */
  ghost predicate BeforeCooldowns(deadline: Option<int>, views: seq<View>, allowed: set<AuthId>, now: int) {
    forall v :: v in views && Cooling(v, allowed, now) ==> deadline.Some? && deadline.value <= v.blocked.value.retryAt
  }

  ghost predicate BeforeRetries(
    deadline: Option<int>, auths: set<AuthId>, blame: map<AuthId, UpstreamFailure>, now: int)
  {
    forall a :: a in auths && a in blame && blame[a].retryAt != 0 ==>
      deadline.Some? && deadline.value <= NotBefore(blame[a].retryAt, now)
  }

  ghost predicate IsDeadline(
    t: int, views: seq<View>, allowed: set<AuthId>, blame: map<AuthId, UpstreamFailure>, earlier: int, now: int)
  {
    || (exists v :: v in views && Cooling(v, allowed, earlier) && v.blocked.value.retryAt == t)
    || (exists a :: a in blame && blame[a].retryAt != 0 && NotBefore(blame[a].retryAt, now) == t)
  }

  /** The earliest time at which one of the request's auths may be usable again, if there is one. */
  ghost predicate IsNearest(
    deadline: Option<int>, views: seq<View>, allowed: set<AuthId>, blame: map<AuthId, UpstreamFailure>,
    earlier: int, now: int)
  {
    && (deadline.Some? ==> IsDeadline(deadline.value, views, allowed, blame, earlier, now))
    && BeforeCooldowns(deadline, views, allowed, earlier)
    && BeforeRetries(deadline, blame.Keys, blame, now)
  }

  method NearestCooldown(
    views: seq<View>, allowed: set<AuthId>, aggregate: map<AuthId, UpstreamFailure>, earlier: int, now: int)
    returns (deadline: Option<int>)
    ensures IsNearest(deadline, views, allowed, aggregate, earlier, now)
  {
    deadline := None;
    for i := 0 to |views|
      invariant deadline.Some? ==> IsDeadline(deadline.value, views, allowed, aggregate, earlier, now)
      invariant BeforeCooldowns(deadline, views[..i], allowed, earlier)
    {
      var v := views[i];
      assert forall w :: w in views[..i + 1] <==> w in views[..i] || w == v;
      if !v.active || v.id !in allowed || v.blocked.None? {
        continue;
      }
      var retryAt := v.blocked.value.retryAt;
      if retryAt == 0 || retryAt <= earlier {
        continue;
      }
      if deadline.None? || retryAt < deadline.value {
        deadline := Some(retryAt);
      }
    }
    assert views[..|views|] == views;
    var left := aggregate.Keys;
    while left != {}
      invariant left <= aggregate.Keys
      invariant deadline.Some? ==> IsDeadline(deadline.value, views, allowed, aggregate, earlier, now)
      invariant BeforeCooldowns(deadline, views, allowed, earlier)
      invariant BeforeRetries(deadline, aggregate.Keys - left, aggregate, now)
      decreases |left|
    {
      var auth :| auth in left;
      left := left - {auth};
      if aggregate[auth].retryAt == 0 {
        continue;
      }
      var retryAt := aggregate[auth].retryAt;
      if retryAt < now {
        retryAt := now;
      }
      if deadline.None? || retryAt < deadline.value {
        deadline := Some(retryAt);
      }
    }
  }

  /** Whatever order the aggregate is walked in, the deadline is the same. */
  lemma NearestIsUnique(
    d: Option<int>, e: Option<int>, views: seq<View>, allowed: set<AuthId>, blame: map<AuthId, UpstreamFailure>,
    earlier: int, now: int)
    requires IsNearest(d, views, allowed, blame, earlier, now) && IsNearest(e, views, allowed, blame, earlier, now)
    ensures d == e
  {
    if d.Some? {
      assert e.Some? && e.value <= d.value;
    }
    if e.Some? {
      assert d.Some? && d.value <= e.value;
    }
  }

  // ----- the request -----

  /** What a request was given up for, or what it waits for, with what was known then. */
  datatype Reason =
    | NotReplayable
    | LastRound
    | NoWaiting
    | NothingToWaitFor(views: seq<View>, earlier: int, now: int)
    | TooFar(deadline: int, views: seq<View>, earlier: int, now: int, asked: int)
    | WorthWaiting(deadline: int, views: seq<View>, earlier: int, now: int, asked: int)

  ghost predicate Justifies(why: Reason, log: seq<Event>, config: Config, allowed: set<AuthId>, replayable: bool) {
    && (Finished(log, config.maxCredentials) || (why.NotReplayable? && Spent(log)))
    && match why
      case NotReplayable => !replayable
      case LastRound => Count(log, Waits) + 1 == Rounds(config)
      case NoWaiting => config.maxInterval <= 0
      case NothingToWaitFor(views, earlier, now) => IsNearest(None, views, allowed, Blame(log), earlier, now)
      case TooFar(deadline, views, earlier, now, asked) =>
        IsNearest(Some(deadline), views, allowed, Blame(log), earlier, now) && deadline - asked > MaxWait(config)
      case WorthWaiting(_, _, _, _, _) => false
  }

  /** After `log` the request waits until the earliest time at which one of its auths may be usable again. */
  ghost predicate WaitsFor(why: Reason, delay: int, log: seq<Event>, config: Config, allowed: set<AuthId>) {
    && why.WorthWaiting?
    && IsNearest(Some(why.deadline), why.views, allowed, Blame(log), why.earlier, why.now)
    && delay == (if why.deadline > why.asked then why.deadline - why.asked else 0) <= MaxWait(config)
  }

  lemma OneMoreRound(
    picks: nat, strays: nat, eligible: nat, selected: nat, config: Config, allowed: set<AuthId>, rounds: nat)
    requires BudgetSoFar(picks, strays, config, allowed, rounds)
    requires eligible <= selected && eligible <= |allowed|
    requires config.maxCredentials > 0 ==> selected <= config.maxCredentials
    ensures BudgetSoFar(picks + eligible, strays + selected - eligible, config, allowed, rounds + 1)
  {
    OneMore(rounds, PerRound(config, allowed));
    OneMore(rounds, config.maxCredentials);
  }

  lemma Monotone(m: nat, n: nat, k: nat)
    requires m <= n
    ensures m * k <= n * k
  {
  }

  lemma BudgetsHold(log: seq<Event>, config: Config, allowed: set<AuthId>, replayable: bool, rounds: nat)
    requires Ruled(log, config, allowed, replayable) && AtMostOneAttempt(log, replayable, 1)
    requires rounds <= (if replayable then Rounds(config) else 1)
    requires BudgetSoFar(Count(log, Picks), Count(log, Strays), config, allowed, rounds)
    requires Count(log, Waits) < (if replayable then Rounds(config) else 1)
    requires config.maxInterval <= 0 ==> Count(log, Waits) == 0
    ensures WithinBudgets(log, config, allowed, replayable)
  {
    var all := if replayable then Rounds(config) else 1;
    TwoAttemptsPerCandidate(log, replayable);
    TotalWaitIsBounded(log, MaxWait(config));
    Monotone(rounds, all, PerRound(config, allowed));
    if config.maxCredentials > 0 {
      Monotone(rounds, all, config.maxCredentials);
    }
    if config.maxInterval > 0 {
      Monotone(Count(log, Waits), all - 1, MaxWait(config));
    }
  }

  /** The request ended with the error of a call, which its log names last. */
  predicate IsBroken(log: seq<Event>) {
    |log| > 0 && log[|log| - 1].Broken?
  }

  /** What a request has to show for how it ended. */
  ghost predicate Explains(
    result: Result, why: Reason, views: seq<View>, log: seq<Event>, config: Config, allowed: set<AuthId>,
    replayable: bool, now: int)
  {
    match result
    case Served(auth, attempt) => ServedBy(log, replayable, auth, attempt)
    case Refused(error) =>
      && Justifies(why, log, config, allowed, replayable)
      && IsFinalError(error, Verdicts(views, allowed, Blame(log)), config, now)
    case Aborted => IsBroken(log)
  }

  // ----- rate limited although an auth is free -----

  /** The request may use this auth, which is enabled, unblocked, and has not failed it. */
  predicate Idle(v: View, allowed: set<AuthId>, blame: map<AuthId, UpstreamFailure>) {
    v.id in allowed && !v.disabled && v.blocked.None? && v.id !in blame
  }

  lemma IdleIsFree(v: View, allowed: set<AuthId>, log: seq<Event>, replayable: bool)
    requires IsLog(log, replayable) && v.id in allowed
    ensures VerdictOn(v, Blame(log)).Free? <==> Idle(v, allowed, Blame(log))
  {
    if v.id in Blame(log) {
      BlameIsForFailures(log, replayable, v.id);
    }
  }

  lemma {:induction false} FreeMeansIdle(views: seq<View>, allowed: set<AuthId>, log: seq<Event>, replayable: bool)
    requires IsLog(log, replayable)
    ensures Free in Verdicts(views, allowed, Blame(log)) <==> exists v :: v in views && Idle(v, allowed, Blame(log))
  {
    if views != [] {
      var init, last := views[..|views| - 1], views[|views| - 1];
      assert views == init + [last];
      FreeMeansIdle(init, allowed, log, replayable);
      if last.id in allowed {
        IdleIsFree(last, allowed, log, replayable);
      }
    }
  }

  ghost predicate Quota(vs: seq<Verdict>) {
    exists v :: v in vs && v.QuotaBlocked?
  }

  /** The earliest quota deadline is one that the request could have waited for. */
  predicate WithinReach(t: int, config: Config, now: int) {
    t != 0 && MaxWait(config) > 0 && t - now <= MaxWait(config)
  }

  lemma RateLimitedWithFreeIff(error: FinalError, vs: seq<Verdict>, config: Config, now: int, t: int)
    requires Free in vs && IsFinalError(error, vs, config, now) && IsEarliest(t, vs)
    ensures error == RateLimited(t) || error == UpstreamUnavailable
    ensures error == RateLimited(t) <==> Quota(vs) && (TransientBlocked !in vs || WithinReach(t, config, now))
  {
    EarliestIsUnique(vs, t);
    assert !Free.ModelBlocked? && !Unusable(Free);
  }

  /**
   * "Rate limited" is also said when an auth that the request may use is free. Such an auth was never
   * selected, and it is said exactly when an auth is out of quota and either none is in a transient
   * cooldown or the earliest quota deadline is within reach.
   */
  lemma RateLimitedDespiteFreeIff(
    error: FinalError, why: Reason, views: seq<View>, log: seq<Event>, config: Config, allowed: set<AuthId>,
    replayable: bool, now: int, free: View, t: int)
    requires IsLog(log, replayable) && Explains(Refused(error), why, views, log, config, allowed, replayable, now)
    requires free in views && Idle(free, allowed, Blame(log))
    requires IsEarliest(t, Verdicts(views, allowed, Blame(log)))
    ensures forall i :: 0 <= i < |log| && log[i].Selected? ==> log[i].auth != free.id
    ensures var vs := Verdicts(views, allowed, Blame(log));
      && (error == RateLimited(t) || error == UpstreamUnavailable)
      && (error == RateLimited(t) <==> Quota(vs) && (TransientBlocked !in vs || WithinReach(t, config, now)))
  {
    FreeMeansIdle(views, allowed, log, replayable);
    RateLimitedWithFreeIff(error, Verdicts(views, allowed, Blame(log)), config, now, t);
    forall i | 0 <= i < |log| && log[i].Selected?
      ensures log[i].auth != free.id
    {
      SelectedAreBlamed(log, replayable, i);
    }
  }

  /** One candidate is tried, and upstream says that it is out of quota. */
  function OneQuotaFailure(auth: AuthId, failure: UpstreamFailure, at: int): seq<Event> {
    [Selected(auth, true)] + [Prepared(auth, None, at)] + [Attempted(auth, false, Response(1, failure), at)] +
      [Blamed(auth, failure)]
  }

  lemma PickIsRuled(auth: AuthId, at: int, config: Config, allowed: set<AuthId>, replayable: bool)
    requires auth in allowed
    ensures var log := [Selected(auth, true)] + [Prepared(auth, None, at)];
      && Ruled(log, config, allowed, replayable)
      && Blame(log) == map[] && Count(log, RoundPicks) == 1 && Count(log, Waits) == 0
  {
    var e0, e1 := Selected(auth, true), Prepared(auth, None, at);
    assert Ruled([], config, allowed, replayable) && Blame([]) == map[];
    RuledGrows([], e0, config, allowed, replayable);
    LogCounts([], e0);
    assert [] + [e0] == [e0];
    RuledGrows([e0], e1, config, allowed, replayable);
    LogCounts([e0], e1);
  }

  lemma AttemptIsRuled(
    auth: AuthId, answer: Answer, at: int, config: Config, allowed: set<AuthId>, replayable: bool)
    requires auth in allowed
    ensures var log := [Selected(auth, true)] + [Prepared(auth, None, at)] + [Attempted(auth, false, answer, at)];
      && Ruled(log, config, allowed, replayable)
      && Blame(log) == map[] && Count(log, RoundPicks) == 1 && Count(log, Waits) == 0
  {
    PickIsRuled(auth, at, config, allowed, replayable);
    var log := [Selected(auth, true)] + [Prepared(auth, None, at)];
    RuledGrows(log, Attempted(auth, false, answer, at), config, allowed, replayable);
    LogCounts(log, Attempted(auth, false, answer, at));
  }

  lemma OneQuotaFailureIsRuled(
    auth: AuthId, failure: UpstreamFailure, at: int, config: Config, allowed: set<AuthId>, replayable: bool)
    requires auth in allowed && failure.kind.Quota?
    ensures var log := OneQuotaFailure(auth, failure, at);
      && Ruled(log, config, allowed, replayable)
      && Blame(log) == map[auth := failure] && Count(log, RoundPicks) == 1 && Count(log, Waits) == 0
  {
    var answer := Response(1, failure);
    AttemptIsRuled(auth, answer, at, config, allowed, replayable);
    var log := [Selected(auth, true)] + [Prepared(auth, None, at)] + [Attempted(auth, false, answer, at)];
    RuledGrows(log, Blamed(auth, failure), config, allowed, replayable);
    LogCounts(log, Blamed(auth, failure));
  }

  /** The verdicts on two auths, of which the first is out of quota and the second was not tried. */
  lemma TwoVerdicts(a: View, b: View, t: int, allowed: set<AuthId>, blame: map<AuthId, UpstreamFailure>)
    requires a.id in allowed && a.blocked == Some(Block(AuthHealth.Quota, t)) && !a.disabled
    requires Idle(b, allowed, blame)
    ensures Verdicts([a, b], allowed, blame) == [QuotaBlocked(t), Free]
  {
    assert [a, b][..1] == [a] && [a][..0] == [];
    assert Verdicts([a], allowed, blame) == [QuotaBlocked(t)];
  }

  lemma QuotaBesideFree(t: int, config: Config, now: int)
    ensures IsFinalError(RateLimited(t), [QuotaBlocked(t), Free], config, now)
  {
    var vs := [QuotaBlocked(t), Free];
    assert vs[0] in vs && vs[1] in vs && vs[0].QuotaBlocked? && vs[1].Free?;
    assert forall v :: v in vs ==> v == vs[0] || v == vs[1];
    assert IsEarliest(t, vs);
  }

  /**
   * It happens with one credential for each round, no retries and two auths: the one tried is out of
   * quota until `t`, and the request is refused as rate limited with the other one untouched.
   */
  lemma RateLimitedDespiteFreeAuth(
    a: View, b: View, failure: UpstreamFailure, t: int, at: int, now: int, replayable: bool)
    requires a.id != b.id && failure.kind.Quota? && !a.disabled && !b.disabled
    requires a.blocked == Some(Block(AuthHealth.Quota, t)) && b.blocked.None?
    ensures var config, allowed := Config(0, 1, 0), {a.id, b.id};
      var log := OneQuotaFailure(a.id, failure, at);
      && Ruled(log, config, allowed, replayable) && Idle(b, allowed, Blame(log))
      && Explains(Refused(RateLimited(t)), LastRound, [a, b], log, config, allowed, replayable, now)
  {
    var config, allowed := Config(0, 1, 0), {a.id, b.id};
    OneQuotaFailureIsRuled(a.id, failure, at, config, allowed, replayable);
    var log := OneQuotaFailure(a.id, failure, at);
    TwoVerdicts(a, b, t, allowed, Blame(log));
    QuotaBesideFree(t, config, now);
  }

  datatype Step = Continue | Respond(auth: AuthId, attempt: nat) | GiveUp | Abort

  /** Between candidates, where the configured auths are read again. */
  predicate MayReconcile(log: seq<Event>) {
    |log| > 0 && (log[|log| - 1].Blamed? || log[|log| - 1].Exhausted?)
  }

  /** The only attempt of a request that cannot be replayed got no response. */
  predicate Spent(log: seq<Event>) {
    && |log| > 1 && log[|log| - 1].Blamed?
    && log[|log| - 2].Attempted? && log[|log| - 2].answer.NoResponse?
  }

  lemma FinishedMayReconcile(log: seq<Event>, maxCredentials: int)
    requires Finished(log, maxCredentials)
    ensures MayReconcile(log)
  {
  }

  /** The round has come to its end. */
  predicate Finished(log: seq<Event>, maxCredentials: int) {
    NobodyLeft(log) || (Settled(log) && 0 < maxCredentials <= Count(log, RoundPicks))
  }

  /** What stays the same while one candidate is used. */
  ghost predicate SameChoices(log: seq<Event>, later: seq<Event>) {
    && Count(later, Picks) == Count(log, Picks) && Count(later, Strays) == Count(log, Strays)
    && Count(later, Waits) == Count(log, Waits) && Count(later, RoundPicks) == Count(log, RoundPicks)
    && Count(later, RoundEligible) == Count(log, RoundEligible) && RoundTried(later) == RoundTried(log)
  }

  ghost predicate SameCalls(log: seq<Event>, later: seq<Event>) {
    Count(later, Attempts) == Count(log, Attempts) && Count(later, Refreshes) == Count(log, Refreshes)
  }

  predicate Answered(e: Event, auth: AuthId, answer: Answer) {
    e.Attempted? && e.auth == auth && e.answer == answer && answer.Response?
  }

  /** Upstream has just answered the first attempt with 401. */
  predicate Rejected(e: Event, auth: AuthId) {
    && e.Attempted? && e.auth == auth && !e.again
    && e.answer.Response? && e.answer.failure.kind.Unauthorized?
  }

  /** The auth has just been prepared, or repaired for another go. */
  predicate ReadyFor(e: Event, auth: AuthId, again: bool) {
    if again then e == Repaired(auth) else e.Prepared? && e.auth == auth && e.error.None?
  }

  ghost predicate AtMostOneAttempt(log: seq<Event>, replayable: bool, attempts: nat) {
    !replayable ==> Count(log, Attempts) <= attempts && Count(log, Refreshes) == 0
  }

  /** The round that started at `before` has selected only what its log shows. */
  ghost predicate InRound(before: seq<Event>, log: seq<Event>) {
    && Count(log, Waits) == Count(before, Waits)
    && Count(log, Picks) == Count(before, Picks) + Count(log, RoundEligible)
    && Count(log, Strays) == Count(before, Strays) + Count(log, RoundPicks) - Count(log, RoundEligible)
  }

  /** One request in progress: what it calls, and what it remembers of the answers. */
  class UpstreamExecution {
    const config: Config
    const allowed: set<AuthId>
    const replayable: bool
    var log: seq<Event>
    var aggregate: map<AuthId, UpstreamFailure>
    var now: int
    /** How many candidates another request's rebind puts in place of an eligible one. */
    const interference: nat

    constructor (config: Config, allowed: set<AuthId>, replayable: bool, now: int, interference: nat)
      ensures Valid() && |log| == 0 && this.interference == interference
      ensures this.config == config && this.allowed == allowed && this.replayable == replayable
    {
      this.config, this.allowed, this.replayable, this.interference := config, allowed, replayable, interference;
      log, aggregate, this.now := [], map[], now;
    }

    ghost predicate Ordered()
      reads this
    {
      Ruled(log, config, allowed, replayable) && Count(log, Strays) <= interference
    }

    ghost predicate Valid()
      reads this
    {
      Ordered() && aggregate == Blame(log)
    }

    // ----- the calls, each of which may answer anything -----

    method Tick()
      modifies this`now
      ensures now >= old(now)
    {
      var elapsed: nat :| true;
      now := now + elapsed;
    }

    method Note(e: Event)
      requires Ordered() && MayFollow(log, e, config, allowed, replayable)
      requires e.Selected? && !e.eligible ==> Count(log, Strays) < interference
      modifies this`log, this`now
      ensures Ordered() && Grown(old(log), e, log) && now >= old(now)
    {
      RuledGrows(log, e, config, allowed, replayable);
      LogCounts(log, e);
      log := log + [e];
      Tick();
    }

    /** selectProxyAuthCandidate. */
    method Select(tried: set<AuthId>) returns (pick: Pick)
      requires Valid() && Settled(log) && tried == RoundTried(log)
      modifies this`log, this`now
      ensures Valid() && now >= old(now)
      ensures match pick
        case Picked(auth) => Grown(old(log), Selected(auth, auth in allowed && auth !in tried), log)
        case Nobody => Grown(old(log), Exhausted, log)
        case SelectFailed => Grown(old(log), Broken(Selecting), log)
    {
      if * {
        Note(Broken(Selecting));
        return SelectFailed;
      }
      if * {
        if auth :| auth in allowed - tried {
          Note(Selected(auth, true));
          return Picked(auth);
        }
      }
      if * {
        var auth: AuthId := *;
        if Count(log, Strays) < interference && (auth !in allowed || auth in tried) {
          Note(Selected(auth, false));
          return Picked(auth);
        }
      }
      Note(Exhausted);
      return Nobody;
    }

    method Prepare(auth: AuthId) returns (error: Option<PrepareError>, at: int)
      requires Ordered() && |log| > 0 && log[|log| - 1].Selected? && log[|log| - 1].auth == auth
      modifies this`log, this`now
      ensures Ordered() && Grown(old(log), Prepared(auth, error, at), log)
    {
      Tick();
      error, at := *, now;
      Note(Prepared(auth, error, at));
    }

    method Attempt(auth: AuthId, again: bool) returns (answer: Answer, at: int)
      requires Ordered() && |log| > 0
      requires ReadyFor(log[|log| - 1], auth, again)
      modifies this`log, this`now
      ensures Ordered() && Grown(old(log), Attempted(auth, again, answer, at), log)
      ensures answer.Response? ==> answer.id == Count(log, Attempts)
    {
      Tick();
      answer, at := *, now;
      if answer.Response? {
        answer := answer.(id := Count(log, Attempts) + 1);
      }
      Note(Attempted(auth, again, answer, at));
    }

    /** RefreshAfterUnauthorized. */
    method Refresh(auth: AuthId) returns (error: Option<PrepareError>, at: int)
      requires Ordered() && replayable && |log| > 0 && Rejected(log[|log| - 1], auth)
      modifies this`log, this`now
      ensures Ordered() && Grown(old(log), Refreshed(auth, error, at), log)
    {
      Tick();
      error, at := *, now;
      Note(Refreshed(auth, error, at));
    }

    /** MarkHealthy or MarkCredentialHealthy, which may fail in the store. */
    method Mark(e: Event) returns (ok: bool)
      requires Ordered() && (e.Healed? || e.Repaired?) && MayFollow(log, e, config, allowed, replayable)
      modifies this`log, this`now
      ensures Ordered() && Grown(old(log), if ok then e else Broken(Marking), log)
    {
      ok := *;
      Note(if ok then e else Broken(Marking));
    }

    /** markAuthFailure, and the aggregate's record of it. */
    method MarkFailure(auth: AuthId, failure: UpstreamFailure) returns (ok: bool)
      requires Valid() && MayFollow(log, Blamed(auth, failure), config, allowed, replayable)
      modifies this`log, this`now, this`aggregate
      ensures Valid() && Grown(old(log), if ok then Blamed(auth, failure) else Broken(Marking), log)
      ensures SameChoices(old(log), log) && SameCalls(old(log), log)
    {
      ok := *;
      if ok {
        Note(Blamed(auth, failure));
        aggregate := aggregate[auth := failure];
      } else {
        Note(Broken(Marking));
      }
    }

    /** The request's context has ended, which the failed call before shows. */
    method Cancel() returns (step: Step)
      requires Ordered() && |log| > 0 && MayBreak(log[|log| - 1], Cancelled, replayable)
      modifies this`log, this`now
      ensures Ordered() && Grown(old(log), Broken(Cancelled), log)
      ensures step == Abort && SameChoices(old(log), log) && SameCalls(old(log), log)
    {
      Note(Broken(Cancelled));
      step := Abort;
    }

    /** Blames the candidate and goes on to the next one. */
    method PassOver(auth: AuthId, failure: UpstreamFailure) returns (step: Step)
      requires Valid() && MayFollow(log, Blamed(auth, failure), config, allowed, replayable)
      modifies this`log, this`now, this`aggregate
      ensures Used(old(log), step, auth) && SameCalls(old(log), log)
      ensures step.Continue? || step.Abort?
      ensures step.Continue? ==> Grown(old(log), Blamed(auth, failure), log)
    {
      var marked := MarkFailure(auth, failure);
      step := if marked then Continue else Abort;
    }

    // ----- one candidate -----

    /** Where using `auth` has led from the log `before`. */
    ghost predicate Used(before: seq<Event>, step: Step, auth: AuthId)
      reads this
    {
      && Ordered() && SameChoices(before, log)
      && match step
        case Continue => Valid() && Settled(log)
        case Respond(a, attempt) => a == auth && ServedBy(log, replayable, auth, attempt)
        case GiveUp => Valid() && !replayable && Spent(log)
        case Abort => IsBroken(log)
    }

    method Accept(auth: AuthId, answer: Answer) returns (step: Step)
      requires Valid() && |log| > 0 && Answered(log[|log| - 1], auth, answer)
      requires answer.failure.kind.NoFailure? && answer.id == Count(log, Attempts)
      modifies this`log, this`now
      ensures Used(old(log), step, auth) && SameCalls(old(log), log)
      ensures step.Respond? || step.Abort?
    {
      var healed := Mark(Healed(auth));
      step := if healed then Respond(auth, answer.id) else Abort;
    }

    method RetryRepaired(auth: AuthId) returns (step: Step)
      requires Valid() && replayable && |log| > 0 && log[|log| - 1] == Repaired(auth)
      modifies this`log, this`now, this`aggregate
      ensures Used(old(log), step, auth)
    {
      var answer, at := Attempt(auth, true);
      if answer.NoResponse? {
        if * {
          step := Cancel();
        } else {
          step := PassOver(auth, UpstreamFailure(Transient, at + TRANSIENT_COOLDOWN, NoCode));
        }
      } else if answer.failure.kind.NoFailure? {
        step := Accept(auth, answer);
      } else if answer.failure.kind.RequestScoped? {
        step := Respond(auth, answer.id);
      } else {
        var failure := answer.failure;
        if failure.kind.Unauthorized? {
          failure := UpstreamFailure(Unauthorized, 0, OrUnauthorized(failure.code));
        }
        step := PassOver(auth, failure);
      }
    }

    method RepairUnauthorized(auth: AuthId) returns (step: Step)
      requires Valid() && replayable && |log| > 0 && Rejected(log[|log| - 1], auth)
      modifies this`log, this`now, this`aggregate
      ensures Used(old(log), step, auth)
    {
      var error, at := Refresh(auth);
      if error.Some? {
        if * {
          step := Cancel();
        } else {
          var failure := PreparationFailure(error.value, at);
          if failure.kind.Credential? && failure.code.NoCode? {
            failure := failure.(code := UnauthorizedCode);
          }
          step := PassOver(auth, failure);
        }
      } else {
        var repaired := Mark(Repaired(auth));
        if repaired {
          step := RetryRepaired(auth);
        } else {
          step := Abort;
        }
      }
    }
  
    /** What becomes of a response to the first attempt. */
    method HandleResponse(auth: AuthId, answer: Answer) returns (step: Step)
      requires Valid() && |log| > 0 && Answered(log[|log| - 1], auth, answer) && !log[|log| - 1].again
      requires answer.id == Count(log, Attempts) && AtMostOneAttempt(log, replayable, 1)
      modifies this`log, this`now, this`aggregate
      ensures Used(old(log), step, auth) && AtMostOneAttempt(log, replayable, 1)
      ensures step.Continue? ==> replayable
      ensures !step.GiveUp?
    {
      if answer.failure.kind.Unauthorized? {
        if replayable {
          step := RepairUnauthorized(auth);
        } else {
          // The source keeps no aggregate record here, which nobody would read: the response is passed on.
          step := PassOver(auth, UpstreamFailure(Credential, 0, OrUnauthorized(answer.failure.code)));
        }
      } else if answer.failure.kind.NoFailure? {
        step := Accept(auth, answer);
      } else if answer.failure.kind.RequestScoped? {
        step := Respond(auth, answer.id);
      } else {
        step := PassOver(auth, answer.failure);
      }
      if step.Continue? && !replayable {
        step := Respond(auth, answer.id);
      }
    }

    method HandleUnprepared(auth: AuthId, error: PrepareError, at: int) returns (step: Step)
      requires Valid() && |log| > 0 && log[|log| - 1] == Prepared(auth, Some(error), at)
      modifies this`log, this`now, this`aggregate
      ensures Used(old(log), step, auth) && SameCalls(old(log), log)
      ensures !step.GiveUp?
    {
      if * {
        step := Cancel();
      } else {
        step := PassOver(auth, PreparationFailure(error, at));
      }
    }

    method HandleNoResponse(auth: AuthId, at: int) returns (step: Step)
      requires Valid() && |log| > 0 && log[|log| - 1] == Attempted(auth, false, NoResponse, at)
      requires AtMostOneAttempt(log, replayable, 1)
      modifies this`log, this`now, this`aggregate
      ensures Used(old(log), step, auth) && AtMostOneAttempt(log, replayable, 1)
      ensures step.Continue? ==> replayable
    {
      if * {
        step := Cancel();
      } else {
        step := PassOver(auth, UpstreamFailure(Transient, at + TRANSIENT_COOLDOWN, NoCode));
        if step.Continue? && !replayable {
          step := GiveUp;
        }
      }
    }

    method UseCandidate(auth: AuthId) returns (step: Step)
      requires Valid() && |log| > 0 && log[|log| - 1].Selected? && log[|log| - 1].auth == auth
      requires AtMostOneAttempt(log, replayable, 0)
      modifies this`log, this`now, this`aggregate
      ensures Used(old(log), step, auth) && AtMostOneAttempt(log, replayable, 1)
      ensures step.Continue? ==> AtMostOneAttempt(log, replayable, 0)
    {
      var error, at := Prepare(auth);
      if error.Some? {
        step := HandleUnprepared(auth, error.value, at);
      } else {
        var answer;
        answer, at := Attempt(auth, false);
        if answer.Response? {
          step := HandleResponse(auth, answer);
        } else {
          step := HandleNoResponse(auth, at);
        }
      }
    }

    // ----- one round -----

    ghost predicate StepOk(step: Step)
      reads this
    {
      && Ordered() && AtMostOneAttempt(log, replayable, 1)
      && match step
        case Continue => Valid() && AtMostOneAttempt(log, replayable, 0)
        case Respond(auth, attempt) => ServedBy(log, replayable, auth, attempt)
        case GiveUp => Valid() && !replayable && Spent(log)
        case Abort => IsBroken(log)
    }

    method SelectNext(ghost before: seq<Event>, tried: set<AuthId>) returns (pick: Pick)
      requires InRound(before, log) && tried == RoundTried(log) && Valid() && Settled(log)
      modifies this`log, this`now
      ensures Valid() && InRound(before, log) && SameCalls(old(log), log)
      ensures match pick
        case Picked(auth) =>
          && |log| > 0 && log[|log| - 1].Selected? && log[|log| - 1].auth == auth
          && RoundTried(log) == tried + {auth} && Count(log, RoundPicks) == old(Count(log, RoundPicks)) + 1
        case Nobody => NobodyLeft(log) && Count(log, RoundPicks) == old(Count(log, RoundPicks))
        case SelectFailed => IsBroken(log) && Count(log, RoundPicks) == old(Count(log, RoundPicks))
    {
      pick := Select(tried);
    }

    /** Selects the next candidate and uses it; None when nobody is left. */
    method NextCandidate(ghost before: seq<Event>, tried: set<AuthId>) returns (picked: Option<AuthId>, step: Step)
      requires InRound(before, log) && tried == RoundTried(log) && StepOk(Continue) && Settled(log)
      modifies this`log, this`now, this`aggregate
      ensures InRound(before, log) && StepOk(step)
      ensures match picked
        case None =>
          Count(log, RoundPicks) == old(Count(log, RoundPicks)) && (step.Continue? ==> NobodyLeft(log))
        case Some(auth) =>
          && RoundTried(log) == tried + {auth} && Count(log, RoundPicks) == old(Count(log, RoundPicks)) + 1
          && (step.Continue? ==> Settled(log))
    {
      var pick := SelectNext(before, tried);
      picked, step := None, if pick.Nobody? then Continue else Abort;
      if pick.Picked? {
        step := UseCandidate(pick.auth);
        picked := Some(pick.auth);
      }
    }

    method Round() returns (step: Step)
      requires Valid() && Settled(log) && Count(log, RoundPicks) == 0 && RoundTried(log) == {}
      requires AtMostOneAttempt(log, replayable, 0)
      modifies this`log, this`now, this`aggregate
      ensures InRound(old(log), log)
      ensures config.maxCredentials > 0 ==> Count(log, RoundPicks) <= config.maxCredentials
      ensures StepOk(step)
      ensures step.Continue? ==> Finished(log, config.maxCredentials)
    {
      ghost var before := log;
      EligibleAreSelected(log);
      var tried: set<AuthId> := {};
      var attempted := 0;
      while !(config.maxCredentials > 0 && attempted >= config.maxCredentials)
        invariant StepOk(Continue) && Settled(log) && InRound(before, log)
        invariant tried == RoundTried(log) && attempted == Count(log, RoundPicks)
        invariant config.maxCredentials > 0 ==> attempted <= config.maxCredentials
        decreases |allowed| + interference - Count(before, Strays) - attempted
      {
        RoundIsBounded(log, allowed);
        var picked;
        picked, step := NextCandidate(before, tried);
        if picked.None? || !step.Continue? {
          return;
        }
        tried := tried + {picked.value};
        attempted := attempted + 1;
      }
      step := Continue;
    }

    // ----- the whole request -----

    method Reconcile() returns (views: Option<seq<View>>)
      requires Valid() && MayReconcile(log)
      modifies this`log, this`now
      ensures Valid() && now >= old(now)
      ensures if views.Some? then log == old(log) else Grown(old(log), Broken(Reconciling), log)
    {
      Tick();
      var read: seq<View> := *;
      if * {
        views := Some(read);
      } else {
        views := None;
        Note(Broken(Reconciling));
      }
    }

    method Wait(delay: int) returns (ok: bool)
      requires Valid() && MayFollow(log, Waited(delay), config, allowed, replayable)
      modifies this`log, this`now
      ensures Valid() && RoundEnds(old(log), log, 1)
      ensures if ok then Grown(old(log), Waited(delay), log) && now >= old(now) + delay else IsBroken(log)
    {
      ok := *;
      if ok {
        now := now + delay;
      }
      Note(Waited(delay));
      if !ok {
        Note(Broken(Waiting));
      }
    }

    /** finalProxyError at the end of a request. */
    method Refuse() returns (result: Result, ghost views: seq<View>)
      requires Valid() && MayReconcile(log)
      modifies this`log, this`now
      ensures Valid() && !result.Served? && RoundEnds(old(log), log, 0)
      ensures if result.Aborted? then IsBroken(log)
        else log == old(log) && IsFinalError(result.error, Verdicts(views, allowed, Blame(log)), config, now)
    {
      var reconciled := Reconcile();
      if reconciled.None? {
        return Aborted, [];
      }
      var error := FinalProxyError(reconciled.value, allowed, aggregate, config, now);
      return Refused(error), reconciled.value;
    }

    /** What to do after a round: wait and go on, or give up. */
    method NextRound() returns (delay: Option<int>, failed: bool, ghost why: Reason)
      requires Valid() && Finished(log, config.maxCredentials) && config.maxInterval > 0
      modifies this`log, this`now
      ensures Valid() && RoundEnds(old(log), log, 0)
      ensures if failed then IsBroken(log) else log == old(log)
      ensures delay.Some? ==> !failed && WaitsFor(why, delay.value, log, config, allowed)
      ensures why.WorthWaiting? ==> old(now) <= why.earlier <= why.now <= why.asked <= now
      ensures delay.None? && !failed ==> Justifies(why, log, config, allowed, replayable) && !why.NotReplayable?
    {
      why := NoWaiting;
      FinishedMayReconcile(log, config.maxCredentials);
      var views := Reconcile();
      if views.None? {
        return None, true, why;
      }
      var earlier := now;
      Tick();
      var later := now;
      var deadline := NearestCooldown(views.value, allowed, aggregate, earlier, later);
      if deadline.None? {
        return None, false, NothingToWaitFor(views.value, earlier, later);
      }
      Tick();
      var d := deadline.value - now;
      if d < 0 {
        d := 0;
      }
      if d > MaxWait(config) {
        return None, false, TooFar(deadline.value, views.value, earlier, later, now);
      }
      return Some(d), false, WorthWaiting(deadline.value, views.value, earlier, later, now);
    }

    /** The end of round number `round`: another one after a wait, or the request's error. */
    method FinishRound(round: nat) returns (again: bool, result: Result, ghost why: Reason, ghost views: seq<View>)
      requires Valid() && AtMostOneAttempt(log, replayable, 0) && Finished(log, config.maxCredentials)
      requires round == Count(log, Waits) < (if replayable then Rounds(config) else 1)
      modifies this`log, this`now
      ensures Ordered() && AtMostOneAttempt(log, replayable, 0)
      ensures RoundEnds(old(log), log, if MayWait(round) then 1 else 0)
      ensures if again then
          && aggregate == Blame(log) && WaitedAfter(old(log), log) && MayWait(round)
          && WaitsFor(why, log[|log| - 1].delay, old(log), config, allowed)
        else Ends(result, why, views)
    {
      again, result, why, views := false, Aborted, NotReplayable, [];
      FinishedMayReconcile(log, config.maxCredentials);
      if !replayable || round >= config.requestRetry || config.maxInterval <= 0 {
        why := if !replayable then NotReplayable else if config.maxInterval <= 0 then NoWaiting else LastRound;
        result, views := Refuse();
      } else {
        var delay, failed;
        delay, failed, why := NextRound();
        if delay.Some? {
          again := Wait(delay.value);
        } else if !failed {
          result, views := Refuse();
        }
      }
    }

    ghost predicate MayWait(round: nat) {
      replayable && round < config.requestRetry && config.maxInterval > 0
    }

    ghost predicate WaitedAfter(before: seq<Event>, log: seq<Event>) {
      && |log| > 0 && log[|log| - 1].Waited? && Grown(before, log[|log| - 1], log)
    }

    /** After the last candidate of a round there are at most `waits` waits, and no more calls of auths. */
    ghost predicate RoundEnds(before: seq<Event>, log: seq<Event>, waits: nat) {
      && Count(log, Picks) == Count(before, Picks) && Count(log, Strays) == Count(before, Strays)
      && Count(before, Waits) <= Count(log, Waits) <= Count(before, Waits) + waits && SameCalls(before, log)
    }

    ghost predicate Ends(result: Result, why: Reason, views: seq<View>)
      reads this
    {
      Explains(result, why, views, log, config, allowed, replayable, now)
    }

    /** Round number `round` may start. */
    ghost predicate RoundStart(round: nat)
      reads this
    {
      && Valid() && Settled(log) && Count(log, RoundPicks) == 0 && RoundTried(log) == {}
      && AtMostOneAttempt(log, replayable, 0)
      && round == Count(log, Waits) < (if replayable then Rounds(config) else 1)
      && (config.maxInterval <= 0 ==> round == 0)
      && BudgetSoFar(Count(log, Picks), Count(log, Strays), config, allowed, round)
    }

    lemma FinishedRound(round: nat, start: seq<Event>, over: seq<Event>)
      requires InRound(start, over) && Ruled(over, config, allowed, replayable) && round == Count(start, Waits)
      requires config.maxCredentials > 0 ==> Count(over, RoundPicks) <= config.maxCredentials
      requires round < (if replayable then Rounds(config) else 1) && (config.maxInterval <= 0 ==> round == 0)
      requires BudgetSoFar(Count(start, Picks), Count(start, Strays), config, allowed, round)
      requires Ordered() && AtMostOneAttempt(log, replayable, 1)
      requires RoundEnds(over, log, if MayWait(round) then 1 else 0)
      ensures WithinBudgets(log, config, allowed, replayable)
      ensures BudgetSoFar(Count(log, Picks), Count(log, Strays), config, allowed, round + 1)
    {
      RoundIsBounded(over, allowed);
      EligibleAreSelected(over);
      OneMoreRound(
        Count(start, Picks), Count(start, Strays), Count(over, RoundEligible), Count(over, RoundPicks),
        config, allowed, round);
      BudgetsHold(log, config, allowed, replayable, round + 1);
    }

    method RunRound(round: nat) returns (again: bool, result: Result, ghost why: Reason, ghost views: seq<View>)
      requires RoundStart(round)
      modifies this`log, this`now, this`aggregate
      ensures Ordered() && WithinBudgets(log, config, allowed, replayable)
      ensures if again then RoundStart(round + 1) else Ends(result, why, views)
    {
      again, result, why, views := false, Aborted, NotReplayable, [];
      ghost var start := log;
      var step := Round();
      ghost var over := log;
      if step.Respond? {
        result := Served(step.auth, step.attempt);
      } else if step.GiveUp? {
        result, views := Refuse();
      } else if step.Continue? {
        again, result, why, views := FinishRound(round);
      }
      FinishedRound(round, start, over);
    }

    method Run() returns (result: Result, ghost why: Reason, ghost views: seq<View>)
      requires Valid() && |log| == 0
      modifies this`log, this`now, this`aggregate
      ensures Ordered() && WithinBudgets(log, config, allowed, replayable)
      ensures Ends(result, why, views)
    {
      var round := 0;
      var again;
      again, result, why, views := RunRound(round);
      while again
        invariant Ordered() && WithinBudgets(log, config, allowed, replayable)
        invariant if again then RoundStart(round + 1) else Ends(result, why, views)
        decreases again, Rounds(config) - round
      {
        round := round + 1;
        again, result, why, views := RunRound(round);
      }
    }
  }

  /** The auths a request may use: all configured ones, or those known to support its model. */
  function AllowedAuths(configured: set<AuthId>, supporting: Option<set<AuthId>>): set<AuthId> {
    if supporting.Some? then supporting.value else configured
  }

  /**
   * executeUpstream. `configured` is None when the auths could not be read; `interference` bounds the
   * candidates that other requests put in place of eligible ones, which the log shows as strays.
   */
  method ExecuteUpstream(
    config: Config, configured: Option<set<AuthId>>, supporting: Option<set<AuthId>>, replayable: bool, start: int,
    interference: nat)
    returns (result: Result, log: seq<Event>, now: int, ghost why: Reason, ghost views: seq<View>)
    ensures configured.None? ==> result == Aborted && log == [Broken(Reconciling)]
    ensures configured.Some? && supporting == Some({}) ==> result == Refused(ModelNotFound) && log == []
    ensures configured.Some? ==>
      var allowed := AllowedAuths(configured.value, supporting);
      && Ruled(log, config, allowed, replayable) && Count(log, Strays) <= interference
      && WithinBudgets(log, config, allowed, replayable)
      && (supporting != Some({}) ==> Explains(result, why, views, log, config, allowed, replayable, now))
  {
    why, views := NotReplayable, [];
    if configured.None? {
      return Aborted, [Broken(Reconciling)], start, why, views;
    }
    var allowed := configured.value;
    if supporting.Some? {
      if supporting.value == {} {
        BudgetsHold([], config, {}, replayable, 0);
        return Refused(ModelNotFound), [], start, why, views;
      }
      allowed := supporting.value;
    }
    var execution := new UpstreamExecution(config, allowed, replayable, start, interference);
    result, why, views := execution.Run();
    return result, execution.log, execution.now, why, views;
  }
}

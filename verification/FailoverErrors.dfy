// The error a request ends with, told from its log: what happened to each auth it tried, and what the
// health registry says of the others (internal/codexonly/failover.go).

module FailoverErrors {
  import opened Wrappers
  import opened FailoverLog
  import opened Failover
  import AuthHealth

  /** What went wrong with an auth, when it may be tried again, 0 for "not known", and the error code. */
  datatype Fault = Fault(verdict: Verdict, retryAt: int, code: Code)

  // The minute that a passing fault keeps an auth out of use.
  const MINUTE := 60_000_000_000

  /** What a failed preparation or refresh says of an auth: one that may be retried is a passing fault. */
  function PrepareFault(error: PrepareError, at: int): Fault {
    match error
    case Unprepared => Fault(CredentialBlocked, 0, NoCode)
    case OAuth(code, retryable) =>
      if retryable && code != InvalidGrant then Fault(TransientBlocked, at + MINUTE, code)
      else Fault(CredentialBlocked, 0, code)
  }

  /** A refresh after a rejected request: the rejection is the code when the refresh has none. */
  function RefreshFault(error: PrepareError, at: int): Fault {
    var fault := PrepareFault(error, at);
    if fault.verdict.CredentialBlocked? && fault.code.NoCode? then fault.(code := UnauthorizedCode) else fault
  }

  /** What an event says of its auth, if it is a failure that the request goes on from. */
  function FaultOf(e: Event, replayable: bool): Option<Fault> {
    match e
    case Prepared(_, error, at) => if error.Some? then Some(PrepareFault(error.value, at)) else None
    case Refreshed(_, error, at) => if error.Some? then Some(RefreshFault(error.value, at)) else None
    case Attempted(_, again, answer, at) =>
      if answer.NoResponse? then Some(Fault(TransientBlocked, at + MINUTE, NoCode))
      else
        var f := answer.failure;
        (match f.kind
        case Quota => Some(Fault(QuotaBlocked(f.retryAt), f.retryAt, f.code))
        case Transient => Some(Fault(TransientBlocked, f.retryAt, f.code))
        case ModelUnsupported => Some(Fault(ModelBlocked, f.retryAt, f.code))
        case Credential => Some(Fault(CredentialBlocked, f.retryAt, f.code))
        case Unauthorized =>
          if again || !replayable then Some(Fault(CredentialBlocked, 0, if f.code.NoCode? then UnauthorizedCode else f.code))
          else None
        case NoFailure => None
        case RequestScoped => None)
    case _ => None
  }

  /** The last failure of an auth, if it failed at all. */
  function LastFault(log: seq<Event>, auth: AuthId, replayable: bool): Option<Fault> {
    if |log| == 0 then None
    else
      var last := log[|log| - 1];
      if FaultOf(last, replayable).Some? && last.auth == auth then FaultOf(last, replayable)
      else LastFault(log[..|log| - 1], auth, replayable)
  }

  /** What the request's failure aggregate says of an auth. */
  function BlameFault(blame: map<AuthId, UpstreamFailure>, auth: AuthId): Option<Fault> {
    if auth !in blame then None
    else
      var retryAt, code := blame[auth].retryAt, blame[auth].code;
      match blame[auth].kind
      case Quota => Some(Fault(QuotaBlocked(retryAt), retryAt, code))
      case Transient => Some(Fault(TransientBlocked, retryAt, code))
      case ModelUnsupported => Some(Fault(ModelBlocked, retryAt, code))
      case Credential => Some(Fault(CredentialBlocked, retryAt, code))
      case Unauthorized => Some(Fault(CredentialBlocked, retryAt, code))
      case NoFailure => None
      case RequestScoped => None
  }

  lemma FaultIsBlamed(e: Event, replayable: bool)
    ensures FaultOf(e, replayable).Some? <==> BlameFor(e, replayable).Some?
    ensures BlameFor(e, replayable).Some? ==>
      BlameFault(map[e.auth := BlameFor(e, replayable).value], e.auth) == FaultOf(e, replayable)
  {
  }

  /** The failure at the end of the log has not been marked yet, or the request has just broken off. */
  predicate Pending(log: seq<Event>, auth: AuthId, replayable: bool) {
    |log| > 0 &&
    (log[|log| - 1].Broken? || (FaultOf(log[|log| - 1], replayable).Some? && log[|log| - 1].auth == auth))
  }

  /** The aggregate holds the last failure of each auth. */
  lemma {:induction false} AggregateIsLastFault(log: seq<Event>, auth: AuthId, replayable: bool)
    requires IsLog(log, replayable) && !Pending(log, auth, replayable)
    ensures BlameFault(Blame(log), auth) == LastFault(log, auth, replayable)
  {
    if |log| > 0 {
      var n := |log| - 1;
      PrefixIsLog(log, replayable);
      if n > 0 {
        assert InOrder(log, n, replayable);
        FaultIsBlamed(log[n - 1], replayable);
      }
      if log[n].Blamed? && log[n].auth == auth {
        assert log[..n][n - 1] == log[n - 1];
      } else {
        AggregateIsLastFault(log[..n], auth, replayable);
      }
    }
  }

  /** The verdict that a blocking state of the health registry stands for. */
  function BlockVerdict(b: Block): Verdict {
    match b.kind
    case ModelUnsupported => ModelBlocked
    case Quota => QuotaBlocked(b.retryAt)
    case Transient => TransientBlocked
    case InvalidGrant => CredentialBlocked
    case Unauthorized => CredentialBlocked
    case CredentialInvalid => CredentialBlocked
  }

  /** What an auth counts as: blocked in the registry, else as the request last found it; disabled beats all but the model. */
  function Standing(v: View, log: seq<Event>, replayable: bool): Verdict {
    var fault := LastFault(log, v.id, replayable);
    var verdict :=
      if v.blocked.Some? then BlockVerdict(v.blocked.value) else if fault.Some? then fault.value.verdict else Free;
    if v.disabled && verdict != ModelBlocked then Disabled else verdict
  }

  function Standings(views: seq<View>, allowed: set<AuthId>, log: seq<Event>, replayable: bool): seq<Verdict> {
    if views == [] then []
    else
      var last := views[|views| - 1];
      Standings(views[..|views| - 1], allowed, log, replayable) +
        if last.id in allowed then [Standing(last, log, replayable)] else []
  }

  lemma VerdictIsStanding(v: View, log: seq<Event>, replayable: bool)
    requires IsLog(log, replayable) && (Settled(log) || NobodyLeft(log))
    ensures VerdictOn(v, Blame(log)) == Standing(v, log, replayable)
  {
    AggregateIsLastFault(log, v.id, replayable);
    if v.id in Blame(log) {
      BlameIsForFailures(log, replayable, v.id);
    }
  }

  lemma {:induction false} VerdictsAreStandings(
    views: seq<View>, allowed: set<AuthId>, log: seq<Event>, replayable: bool)
    requires IsLog(log, replayable) && (Settled(log) || NobodyLeft(log))
    ensures Verdicts(views, allowed, Blame(log)) == Standings(views, allowed, log, replayable)
  {
    if views != [] {
      VerdictsAreStandings(views[..|views| - 1], allowed, log, replayable);
      VerdictIsStanding(views[|views| - 1], log, replayable);
    }
  }

  /** The error of a refused request follows from how its auths stand, and from nothing else. */
  lemma RefusalFollowsFromLog(
    error: FinalError, why: Reason, views: seq<View>, log: seq<Event>, config: Config, allowed: set<AuthId>,
    replayable: bool, now: int)
    requires IsLog(log, replayable) && Explains(Refused(error), why, views, log, config, allowed, replayable, now)
    ensures IsFinalError(error, Standings(views, allowed, log, replayable), config, now)
  {
    VerdictsAreStandings(views, allowed, log, replayable);
  }

  lemma {:induction false} AllStand(
    views: seq<View>, allowed: set<AuthId>, log: seq<Event>, replayable: bool, verdict: Verdict)
    requires forall v :: v in views && v.id in allowed ==> Standing(v, log, replayable) == verdict
    ensures forall s :: s in Standings(views, allowed, log, replayable) ==> s == verdict
    ensures (exists v :: v in views && v.id in allowed) ==> Standings(views, allowed, log, replayable) != []
  {
    if views != [] {
      var init, last := views[..|views| - 1], views[|views| - 1];
      assert views == init + [last];
      AllStand(init, allowed, log, replayable, verdict);
    }
  }

  /**
   * All auths of a refused request stand alike: without credentials it is an authentication error, without
   * the model it is not found, out of quota it is rate limited, and otherwise upstream is to blame.
   */
  lemma UniformRefusal(
    error: FinalError, why: Reason, views: seq<View>, log: seq<Event>, config: Config, allowed: set<AuthId>,
    replayable: bool, now: int, verdict: Verdict)
    requires IsLog(log, replayable) && Explains(Refused(error), why, views, log, config, allowed, replayable, now)
    requires exists v :: v in views && v.id in allowed
    requires forall v :: v in views && v.id in allowed ==> Standing(v, log, replayable) == verdict
    ensures error ==
      match verdict
      case ModelBlocked => ModelNotFound
      case Disabled => AuthUnavailable
      case CredentialBlocked => AuthUnavailable
      case QuotaBlocked(t) => RateLimited(t)
      case TransientBlocked => UpstreamUnavailable
      case Free => UpstreamUnavailable
  {
    RefusalFollowsFromLog(error, why, views, log, config, allowed, replayable, now);
    AllStand(views, allowed, log, replayable, verdict);
    var vs := Standings(views, allowed, log, replayable);
    assert vs[0] in vs && vs[0] == verdict;
  }

  // ----- waiting -----

  /** `until` is the deadline of a blocked auth that the request may use, or of an auth's last failure. */
  ghost predicate Awaited(
    until: int, views: seq<View>, allowed: set<AuthId>, log: seq<Event>, replayable: bool, earlier: int, now: int)
  {
    || (exists v :: v in views && CoolsDown(v, allowed, until, earlier))
    || (exists a: AuthId :: RetriedAt(log, a, replayable, until, now))
  }

  /** An active auth that the request may use is blocked until `until`, which is still ahead. */
  predicate CoolsDown(v: View, allowed: set<AuthId>, until: int, earlier: int) {
    && v.active && v.id in allowed && v.blocked.Some?
    && v.blocked.value.retryAt == until && until != 0 && earlier < until
  }

  /** The last failure of `auth` lets it be tried again at `until`, which is `now` if that is past. */
  predicate RetriedAt(log: seq<Event>, auth: AuthId, replayable: bool, until: int, now: int) {
    var fault := LastFault(log, auth, replayable);
    && fault.Some? && fault.value.retryAt != 0
    && until == if fault.value.retryAt < now then now else fault.value.retryAt
  }

  /**
   * A request waits for the first of its auths that may be usable again: until the end of a cooldown in the
   * registry or of an auth's last failure, and no such time comes before.
   */
  lemma WaitIsForFirst(
    why: Reason, delay: int, log: seq<Event>, config: Config, allowed: set<AuthId>, replayable: bool)
    requires IsLog(log, replayable) && (Settled(log) || NobodyLeft(log)) && WaitsFor(why, delay, log, config, allowed)
    ensures Awaited(why.deadline, why.views, allowed, log, replayable, why.earlier, why.now)
    ensures forall v, t :: v in why.views && CoolsDown(v, allowed, t, why.earlier) ==> why.deadline <= t
    ensures forall a, t :: RetriedAt(log, a, replayable, t, why.now) ==> why.deadline <= t
    ensures 0 <= delay <= config.maxInterval * 1_000_000_000
    ensures why.asked + delay >= why.deadline && (delay > 0 ==> why.asked + delay == why.deadline)
  {
    var blame := Blame(log);
    forall a ensures BlameFault(blame, a) == LastFault(log, a, replayable) {
      AggregateIsLastFault(log, a, replayable);
    }
    forall a | a in blame ensures blame[a].kind != NoFailure && blame[a].kind != RequestScoped {
      BlameIsForFailures(log, replayable, a);
    }
    if v :| v in why.views && Cooling(v, allowed, why.earlier) && v.blocked.value.retryAt == why.deadline {
      assert CoolsDown(v, allowed, why.deadline, why.earlier);
    }
    if a :| a in blame && blame[a].retryAt != 0 && NotBefore(blame[a].retryAt, why.now) == why.deadline {
      assert RetriedAt(log, a, replayable, why.deadline, why.now);
    }
  }

  /** After its last round a request has waited as often as it may: once before each retry. */
  lemma LastRoundWaited(
    error: FinalError, why: Reason, views: seq<View>, log: seq<Event>, config: Config, allowed: set<AuthId>,
    replayable: bool, now: int)
    requires Explains(Refused(error), why, views, log, config, allowed, replayable, now)
    ensures why.LastRound? ==> Count(log, Waits) == if config.requestRetry > 0 then config.requestRetry else 0
    ensures why.TooFar? ==> why.deadline - why.asked > config.maxInterval * 1_000_000_000
  {
  }
}

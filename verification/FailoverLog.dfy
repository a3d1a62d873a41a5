// Failover of one request over the configured auths: the two nested retry loops of executeUpstream,
// their budgets, and the error a request ends with (internal/codexonly/failover.go).

/** What the calls of one request look like, in the order they are made. */
module FailoverLog {
  import opened Wrappers

  type AuthId = string

  // Times are nanoseconds since Go's zero time; 0 is the zero time, "no deadline".
  const SECOND := 1_000_000_000
  const TRANSIENT_COOLDOWN := 60 * SECOND

  datatype FailureKind = NoFailure | RequestScoped | Unauthorized | Quota | Transient | ModelUnsupported | Credential

  /** The error codes that are told apart. */
  datatype Code = NoCode | InvalidGrant | UnauthorizedCode | OtherCode(text: string)

  datatype UpstreamFailure = UpstreamFailure(kind: FailureKind, retryAt: int, code: Code)

  /** Why an auth could not be prepared or refreshed; the code is what safeHealthCode leaves of it. */
  datatype PrepareError = Unprepared | OAuth(code: Code, retryable: bool)

  /** What upstream said to one attempt; a response is classified as in classifyUpstreamResponse. */
  datatype Answer = NoResponse | Response(id: nat, failure: UpstreamFailure)

  /** The call whose failure ends a request with that error; `Cancelled` is the request's own context. */
  datatype Call = Reconciling | Selecting | Marking | Waiting | Cancelled

  datatype Event =
    | Selected(auth: AuthId, eligible: bool)
    | Exhausted
    | Prepared(auth: AuthId, error: Option<PrepareError>, at: int)
    | Attempted(auth: AuthId, again: bool, answer: Answer, at: int)
    | Refreshed(auth: AuthId, error: Option<PrepareError>, at: int)
    | Repaired(auth: AuthId)
    | Healed(auth: AuthId)
    | Blamed(auth: AuthId, failure: UpstreamFailure)
    | Waited(delay: int)
    | Broken(call: Call)

  /** preparationFailure. */
  function PreparationFailure(error: PrepareError, now: int): UpstreamFailure {
    match error
    case Unprepared => UpstreamFailure(Credential, 0, NoCode)
    case OAuth(code, retryable) =>
      if !code.InvalidGrant? && retryable then UpstreamFailure(Transient, now + TRANSIENT_COOLDOWN, code)
      else UpstreamFailure(Credential, 0, code)
  }

  function OrUnauthorized(code: Code): Code {
    if code.NoCode? then UnauthorizedCode else code
  }

  /** The failure an event is to be answered with, if it is one. */
  function BlameFor(e: Event, replayable: bool): Option<UpstreamFailure> {
    match e
    case Prepared(_, Some(error), at) => Some(PreparationFailure(error, at))
    case Refreshed(_, Some(error), at) =>
      var f := PreparationFailure(error, at);
      Some(if f.kind.Credential? then f.(code := OrUnauthorized(f.code)) else f)
    case Attempted(_, again, NoResponse, at) => Some(UpstreamFailure(Transient, at + TRANSIENT_COOLDOWN, NoCode))
    case Attempted(_, again, Response(_, f), _) =>
      if f.kind.NoFailure? || f.kind.RequestScoped? then None
      else if !f.kind.Unauthorized? then Some(f)
      else if !replayable then Some(UpstreamFailure(Credential, 0, OrUnauthorized(f.code)))
      else if again then Some(UpstreamFailure(Unauthorized, 0, OrUnauthorized(f.code)))
      else None
    case _ => None
  }

  /** Which event may come right after which: the steps of one candidate, and what separates candidates. */
  predicate Follows(a: Event, b: Event, replayable: bool) {
    if b.Broken? then MayBreak(a, b.call, replayable)
    else if BlameFor(a, replayable).Some? then b == Blamed(a.auth, BlameFor(a, replayable).value)
    else
      match a
      case Selected(auth, _) => b.Prepared? && b.auth == auth
      case Prepared(auth, _, _) => b.Attempted? && b.auth == auth && !b.again
      case Attempted(auth, _, Response(_, f), _) =>
        if f.kind.NoFailure? then b == Healed(auth)
        else replayable && f.kind.Unauthorized? && b.Refreshed? && b.auth == auth
      case Refreshed(auth, _, _) => b == Repaired(auth)
      case Repaired(auth) => b.Attempted? && b.auth == auth && b.again
      case Blamed(_, _) => BetweenCandidates(b)
      case Waited(_) => BetweenCandidates(b)
      case Exhausted => b.Waited?
      case _ => false
  }

  /** What a call cannot do may end the request where the call is due. */
  predicate MayBreak(a: Event, call: Call, replayable: bool) {
    match call
    case Reconciling => a.Blamed? || a.Exhausted?
    case Selecting => a.Blamed? || a.Waited?
    case Waiting => a.Waited?
    case Cancelled =>
      (a.Prepared? && a.error.Some?) || (a.Refreshed? && a.error.Some?) || (a.Attempted? && a.answer.NoResponse?)
    case Marking =>
      || BlameFor(a, replayable).Some?
      || (a.Refreshed? && a.error.None?)
      || (a.Attempted? && a.answer.Response? && a.answer.failure.kind.NoFailure?)
  }

  predicate BetweenCandidates(e: Event) {
    e.Selected? || e.Exhausted? || e.Waited?
  }

  /** A request begins with a candidate, or it fails in its first calls. */
  predicate MayBegin(e: Event) {
    BetweenCandidates(e) || (e.Broken? && (e.call.Reconciling? || e.call.Selecting?))
  }

  /** The log of one request. */
  ghost predicate IsLog(log: seq<Event>, replayable: bool) {
    && (|log| > 0 ==> MayBegin(log[0]))
    && forall i :: 0 < i < |log| ==> InOrder(log, i, replayable)
  }

  ghost predicate InOrder(log: seq<Event>, i: nat, replayable: bool)
    requires 0 < i < |log|
  {
    Follows(log[i - 1], log[i], replayable)
  }

  lemma LogGrows(log: seq<Event>, e: Event, replayable: bool)
    requires IsLog(log, replayable)
    requires if |log| == 0 then MayBegin(e) else Follows(log[|log| - 1], e, replayable)
    ensures IsLog(log + [e], replayable)
  {
    forall i | 0 < i < |log + [e]|
      ensures InOrder(log + [e], i, replayable)
    {
      assert i < |log| ==> InOrder(log, i, replayable);
    }
  }

  lemma PrefixIsLog(log: seq<Event>, replayable: bool)
    requires IsLog(log, replayable) && |log| > 0
    ensures IsLog(log[..|log| - 1], replayable)
  {
    var shorter := log[..|log| - 1];
    forall i | 0 < i < |shorter|
      ensures InOrder(shorter, i, replayable)
    {
      assert InOrder(log, i, replayable);
    }
  }

  // ----- totals -----

  /** What is counted over the whole request, and since the last wait. */
  datatype Counter = Picks | Strays | Refreshes | Attempts | Waits | RoundPicks | RoundEligible

  function Count(log: seq<Event>, c: Counter): nat {
    if |log| == 0 then 0 else CountWith(c, Count(log[..|log| - 1], c), log[|log| - 1])
  }

  function CountWith(c: Counter, n: nat, e: Event): nat {
    match c
    case Picks => if e.Selected? && e.eligible then n + 1 else n
    case Strays => if e.Selected? && !e.eligible then n + 1 else n
    case Refreshes => if e.Refreshed? then n + 1 else n
    case Attempts => if e.Attempted? then n + 1 else n
    case Waits => if e.Waited? then n + 1 else n
    case RoundPicks => if e.Waited? then 0 else if e.Selected? then n + 1 else n
    case RoundEligible => if e.Waited? then 0 else if e.Selected? && e.eligible then n + 1 else n
  }

  function TimeWaited(log: seq<Event>): int {
    if |log| == 0 then 0
    else TimeWaited(log[..|log| - 1]) + if log[|log| - 1].Waited? then log[|log| - 1].delay else 0
  }

  /** The auths selected since the last wait. */
  function RoundTried(log: seq<Event>): set<AuthId> {
    if |log| == 0 then {} else TriedWith(RoundTried(log[..|log| - 1]), log[|log| - 1])
  }

  function TriedWith(tried: set<AuthId>, e: Event): set<AuthId> {
    if e.Waited? then {} else if e.Selected? then tried + {e.auth} else tried
  }

  /** The last failure marked for each auth: what the request's failure aggregate holds. */
  function Blame(log: seq<Event>): map<AuthId, UpstreamFailure> {
    if |log| == 0 then map[] else BlameWith(Blame(log[..|log| - 1]), log[|log| - 1])
  }

  function BlameWith(blame: map<AuthId, UpstreamFailure>, e: Event): map<AuthId, UpstreamFailure> {
    if e.Blamed? then blame[e.auth := e.failure] else blame
  }

  /** How much of the current candidate's budget of one refresh and two attempts is not used yet. */
  function Unused(e: Event): (int, int) {
    match e
    case Selected(_, _) => (1, 2)
    case Prepared(_, _, _) => (1, 2)
    case Attempted(_, again, _, _) => if again then (0, 0) else (1, 1)
    case Refreshed(_, _, _) => (0, 1)
    case Repaired(_) => (0, 1)
    case _ => (0, 0)
  }

  /** Every selected candidate is refreshed at most once and attempted at most twice. */
  lemma {:induction false} TwoAttemptsPerCandidate(log: seq<Event>, replayable: bool)
    requires IsLog(log, replayable)
    ensures
      var candidates := Count(log, Picks) + Count(log, Strays);
      var unused := if |log| == 0 then (0, 0) else Unused(log[|log| - 1]);
      Count(log, Refreshes) + unused.0 <= candidates && Count(log, Attempts) + unused.1 <= 2 * candidates
  {
    if |log| > 0 {
      var n := |log| - 1;
      PrefixIsLog(log, replayable);
      TwoAttemptsPerCandidate(log[..n], replayable);
      if n > 0 {
        assert InOrder(log, n, replayable);
      }
    }
  }

  /** All waits of a log are between 0 and `cap` long. */
  ghost predicate WaitsWithin(log: seq<Event>, cap: int) {
    forall i :: 0 <= i < |log| ==> WaitWithin(log, i, cap)
  }

  ghost predicate WaitWithin(log: seq<Event>, i: nat, cap: int)
    requires i < |log|
  {
    log[i].Waited? ==> 0 <= log[i].delay <= cap
  }

  lemma WaitsGrowWithin(log: seq<Event>, e: Event, cap: int)
    requires WaitsWithin(log, cap) && (e.Waited? ==> 0 <= e.delay <= cap)
    ensures WaitsWithin(log + [e], cap)
  {
    forall i | 0 <= i < |log + [e]|
      ensures WaitWithin(log + [e], i, cap)
    {
      assert i < |log| ==> WaitWithin(log, i, cap);
    }
  }

  lemma OneMore(n: nat, k: int)
    ensures (n + 1) * k == n * k + k
  {
  }

  lemma {:induction false} TotalWaitIsBounded(log: seq<Event>, cap: int)
    requires WaitsWithin(log, cap)
    ensures 0 <= TimeWaited(log) <= Count(log, Waits) * cap
  {
    if |log| > 0 {
      var rest := log[..|log| - 1];
      forall i | 0 <= i < |rest|
        ensures WaitWithin(rest, i, cap)
      {
        assert WaitWithin(log, i, cap);
      }
      assert WaitWithin(log, |log| - 1, cap);
      TotalWaitIsBounded(rest, cap);
      OneMore(Count(rest, Waits), cap);
    }
  }

  // ----- rounds -----

  /** No candidate of a round is one that was selected before in it, unless selection itself says so. */
  ghost predicate DistinctInRounds(log: seq<Event>) {
    forall i, j :: 0 <= i < j < |log| ==> DistinctPair(log, i, j)
  }

  ghost predicate DistinctPair(log: seq<Event>, i: nat, j: nat)
    requires i < j < |log|
  {
    SameRound(log, i, j) && Repick(log[i], log[j]) ==> !log[j].eligible
  }

  predicate Repick(a: Event, b: Event) {
    a.Selected? && b.Selected? && a.auth == b.auth
  }

  ghost predicate SameRound(log: seq<Event>, i: nat, j: nat)
    requires i < j < |log|
  {
    forall m :: i < m < j ==> !log[m].Waited?
  }

  lemma {:induction false} RoundTriedHolds(log: seq<Event>, i: nat)
    requires i < |log| && log[i].Selected? && forall m :: i < m < |log| ==> !log[m].Waited?
    ensures log[i].auth in RoundTried(log)
  {
    if i < |log| - 1 {
      RoundTriedHolds(log[..|log| - 1], i);
    }
  }

  /** What selection calls eligible is an auth that the request may use. */
  ghost predicate PicksAllowed(log: seq<Event>, allowed: set<AuthId>) {
    forall i :: 0 <= i < |log| ==> PickAllowed(log, i, allowed)
  }

  ghost predicate PickAllowed(log: seq<Event>, i: nat, allowed: set<AuthId>)
    requires i < |log|
  {
    log[i].Selected? && log[i].eligible ==> log[i].auth in allowed
  }

  lemma {:induction false} WasTried(log: seq<Event>, auth: AuthId) returns (i: nat)
    requires auth in RoundTried(log)
    ensures i < |log| && log[i].Selected? && log[i].auth == auth && forall m :: i < m < |log| ==> !log[m].Waited?
  {
    i := |log| - 1;
    if !log[i].Selected? || log[i].auth != auth {
      i := WasTried(log[..i], auth);
    }
  }

  lemma PrefixKeepsPicks(log: seq<Event>, allowed: set<AuthId>)
    requires DistinctInRounds(log) && PicksAllowed(log, allowed) && |log| > 0
    ensures DistinctInRounds(log[..|log| - 1]) && PicksAllowed(log[..|log| - 1], allowed)
  {
    var shorter := log[..|log| - 1];
    forall i, j | 0 <= i < j < |shorter|
      ensures DistinctPair(shorter, i, j)
    {
      assert DistinctPair(log, i, j);
      assert SameRound(shorter, i, j) ==> SameRound(log, i, j);
    }
    forall i | 0 <= i < |shorter|
      ensures PickAllowed(shorter, i, allowed)
    {
      assert PickAllowed(log, i, allowed);
    }
  }

  lemma RepickIsStray(log: seq<Event>)
    requires DistinctInRounds(log) && |log| > 0 && log[|log| - 1].Selected?
    requires log[|log| - 1].auth in RoundTried(log[..|log| - 1])
    ensures !log[|log| - 1].eligible
  {
    var n := |log| - 1;
    var i := WasTried(log[..n], log[n].auth);
    assert SameRound(log, i, n) by {
      assert forall m :: i < m < n ==> log[..n][m] == log[m];
    }
    assert DistinctPair(log, i, n) && log[i] == log[..n][i];
  }

  lemma {:induction false} EligibleAreSelected(log: seq<Event>)
    ensures Count(log, RoundEligible) <= Count(log, RoundPicks)
  {
    if |log| > 0 {
      EligibleAreSelected(log[..|log| - 1]);
    }
  }

  lemma OneMoreUsed(tried: set<AuthId>, allowed: set<AuthId>, auth: AuthId)
    ensures |(tried + {auth}) * allowed| == |tried * allowed| + if auth in allowed && auth !in tried then 1 else 0
  {
    if auth in allowed && auth !in tried {
      assert (tried + {auth}) * allowed == tried * allowed + {auth};
    } else {
      assert (tried + {auth}) * allowed == tried * allowed;
    }
  }

  lemma {:induction false} TriedBoundsEligible(log: seq<Event>, allowed: set<AuthId>)
    requires DistinctInRounds(log) && PicksAllowed(log, allowed)
    ensures Count(log, RoundEligible) <= |RoundTried(log) * allowed|
  {
    if |log| > 0 && !log[|log| - 1].Waited? {
      var n := |log| - 1;
      PrefixKeepsPicks(log, allowed);
      TriedBoundsEligible(log[..n], allowed);
      if log[n].Selected? {
        assert PickAllowed(log, n, allowed);
        OneMoreUsed(RoundTried(log[..n]), allowed, log[n].auth);
        if log[n].auth in RoundTried(log[..n]) {
          RepickIsStray(log);
        }
      }
    }
  }

  /** A round selects no more eligible candidates than there are allowed auths. */
  lemma RoundIsBounded(log: seq<Event>, allowed: set<AuthId>)
    requires DistinctInRounds(log) && PicksAllowed(log, allowed)
    ensures Count(log, RoundEligible) <= |allowed|
  {
    TriedBoundsEligible(log, allowed);
    SubsetIsSmaller(RoundTried(log) * allowed, allowed);
  }

  lemma {:induction false} SubsetIsSmaller(small: set<AuthId>, large: set<AuthId>)
    requires small <= large
    ensures |small| <= |large|
  {
    assert large == small + (large - small);
  }

  lemma PicksGrow(log: seq<Event>, e: Event, allowed: set<AuthId>)
    requires PicksAllowed(log, allowed) && (e.Selected? && e.eligible ==> e.auth in allowed)
    ensures PicksAllowed(log + [e], allowed)
  {
    forall i | 0 <= i < |log + [e]|
      ensures PickAllowed(log + [e], i, allowed)
    {
      assert i < |log| ==> PickAllowed(log, i, allowed);
    }
  }

  /** A round ends when selection finds nobody or the credential budget is used up. */
  predicate RoundIsOver(log: seq<Event>, maxCredentials: int) {
    || (|log| > 0 && log[|log| - 1].Exhausted?)
    || 0 < maxCredentials <= Count(log, RoundPicks)
  }

  ghost predicate WaitsEndRounds(log: seq<Event>, maxCredentials: int) {
    forall i :: 0 <= i < |log| ==> WaitEndsRound(log, i, maxCredentials)
  }

  ghost predicate WaitEndsRound(log: seq<Event>, i: nat, maxCredentials: int)
    requires i < |log|
  {
    log[i].Waited? ==> RoundIsOver(log[..i], maxCredentials)
  }

  lemma DistinctGrows(log: seq<Event>, e: Event)
    requires DistinctInRounds(log)
    requires e.Selected? && e.eligible ==> e.auth !in RoundTried(log)
    ensures DistinctInRounds(log + [e])
  {
    var longer := log + [e];
    forall i, j | 0 <= i < j < |longer|
      ensures DistinctPair(longer, i, j)
    {
      assert forall m :: i < m < j ==> longer[m] == log[m];
      if j < |log| {
        assert DistinctPair(log, i, j);
        assert SameRound(longer, i, j) ==> SameRound(log, i, j);
      } else if SameRound(longer, i, j) && log[i].Selected? {
        RoundTriedHolds(log, i);
      }
    }
  }

  lemma WaitsGrow(log: seq<Event>, e: Event, maxCredentials: int)
    requires WaitsEndRounds(log, maxCredentials)
    requires e.Waited? ==> RoundIsOver(log, maxCredentials)
    ensures WaitsEndRounds(log + [e], maxCredentials)
  {
    var longer := log + [e];
    forall i | 0 <= i < |longer|
      ensures WaitEndsRound(longer, i, maxCredentials)
    {
      assert longer[..i] == log[..i];
      assert log[..|log|] == log;
      assert i < |log| ==> WaitEndsRound(log, i, maxCredentials);
    }
  }

  // ----- who is to blame -----

  ghost predicate Failed(f: UpstreamFailure) {
    !f.kind.NoFailure? && !f.kind.RequestScoped?
  }

  /** Nobody is blamed for a success or for an error of the request itself. */
  lemma {:induction false} BlameIsForFailures(log: seq<Event>, replayable: bool, auth: AuthId)
    requires IsLog(log, replayable) && auth in Blame(log)
    ensures Failed(Blame(log)[auth])
  {
    var n := |log| - 1;
    if log[n].Blamed? && log[n].auth == auth {
      assert InOrder(log, n, replayable);
    } else {
      PrefixIsLog(log, replayable);
      BlameIsForFailures(log[..n], replayable, auth);
    }
  }

  predicate OfCandidate(e: Event, auth: AuthId) {
    !BetweenCandidates(e) && !e.Broken? && e.auth == auth
  }

  /** By the time another candidate is looked for, the one before has been blamed. */
  lemma {:induction false} AbandonedIsBlamed(log: seq<Event>, replayable: bool, i: nat, j: nat)
    requires IsLog(log, replayable) && i < j < |log|
    requires log[i].Selected? && BetweenCandidates(log[j])
    ensures exists k :: i < k < j && log[k].Blamed? && log[k].auth == log[i].auth
  {
    var k: nat := i;
    while !log[k].Blamed?
      invariant i <= k < j && !log[k].Broken?
      invariant log[k].Selected? || OfCandidate(log[k], log[i].auth)
      invariant log[k].auth == log[i].auth
      decreases j - k
    {
      assert InOrder(log, k + 1, replayable);
      if k + 1 < j {
        assert InOrder(log, k + 2, replayable);
      }
      k := k + 1;
    }
  }

  lemma {:induction false} BlamedIsInBlame(log: seq<Event>, k: nat)
    requires k < |log| && log[k].Blamed?
    ensures log[k].auth in Blame(log)
  {
    if k < |log| - 1 {
      BlamedIsInBlame(log[..|log| - 1], k);
    }
  }

  /** Another candidate may be looked for. */
  predicate Settled(log: seq<Event>) {
    |log| == 0 || log[|log| - 1].Blamed? || log[|log| - 1].Waited?
  }

  predicate NobodyLeft(log: seq<Event>) {
    |log| > 0 && log[|log| - 1].Exhausted?
  }

  /** When no candidate is in use, all that were selected are in the request's failure aggregate. */
  lemma SelectedAreBlamed(log: seq<Event>, replayable: bool, i: nat)
    requires IsLog(log, replayable) && (Settled(log) || NobodyLeft(log))
    requires i < |log| && log[i].Selected?
    ensures log[i].auth in Blame(log)
  {
    var last := |log| - 1;
    if NobodyLeft(log) {
      AbandonedIsBlamed(log, replayable, i, last);
      var k :| i < k < last && log[k].Blamed? && log[k].auth == log[i].auth;
      BlamedIsInBlame(log, k);
    } else {
      LogGrows(log, Exhausted, replayable);
      AbandonedIsBlamed(log + [Exhausted], replayable, i, |log|);
      var k :| i < k < |log| && (log + [Exhausted])[k].Blamed? && (log + [Exhausted])[k].auth == log[i].auth;
      BlamedIsInBlame(log, k);
    }
  }

  /** `longer` adds up to what `log` with `e` does. */
  ghost predicate Grown(log: seq<Event>, e: Event, longer: seq<Event>) {
    && |longer| == |log| + 1 && longer[|log|] == e && (|log| > 0 ==> longer[|log| - 1] == log[|log| - 1])
    && (forall c :: Count(longer, c) == CountWith(c, Count(log, c), e))
    && RoundTried(longer) == TriedWith(RoundTried(log), e)
    && Blame(longer) == BlameWith(Blame(log), e)
  }

  lemma LogCounts(log: seq<Event>, e: Event)
    ensures Grown(log, e, log + [e])
  {
    assert (log + [e])[..|log + [e]| - 1] == log;
  }
}

// Which event decides what a caller of refresh returns, over whole runs: the answer of the exchange, the
// stored credentials, or a failure with its own cause (internal/codexonly/server.go).

module RefreshFlightRun {
  import opened Wrappers
  import opened RefreshFlight

  /** What the answer of an exchange means for everybody in its call. */
  function AnswerOf(renewed: Option<Auth>): Result<Auth, RefreshFlight.Failure> {
    if renewed.Some? then Success(renewed.value) else Result.Failure(ExchangeFailed)
  }

  /** The stored credentials that the leader may use: active ones, or any if the refresh is forced. */
  predicate Usable(s: State, ask: Ask) {
    ask.id in s.files && (s.files[ask.id].active || ask.force)
  }

  /** Somebody else has replaced the rejected token already, by one that will do. */
  predicate ReplacedMeanwhile(a: Auth, ask: Ask, now: int) {
    && !ask.force && a.token != "" && a.token != ask.failed
    && (ask.reuseChanged || a.expires.None? || now < a.expires.value)
  }

  // ----- the leader -----

  /** The event, in state `s`, is what decides the outcome of the leader `c`. */
  predicate IsCause(s: State, e: Event, c: Caller, ask: Ask, outcome: Result<Auth, RefreshFlight.Failure>) {
    match e
    case Start(leader, reloads, now) =>
      leader == c &&
      (match outcome
       case Success(a) => reloads && Usable(s, ask) && a == s.files[ask.id] && ReplacedMeanwhile(a, ask, now)
       case Failure(why) => if reloads then why.NotAvailable? && !Usable(s, ask) else why.ReloadFailed?)
    case Exchange(leader, renewed) => leader == c && outcome == AnswerOf(renewed)
    case _ => false
  }

  ghost predicate HasCause(
    trace: seq<State>, events: seq<Event>, i: nat, c: Caller, ask: Ask, outcome: Result<Auth, RefreshFlight.Failure>)
    requires |trace| == |events| + 1 && i < |trace|
  {
    exists k :: 0 <= k < i && IsCause(trace[k], events[k], c, ask, outcome)
  }

  /** The leader of a call knows how the call ends. */
  predicate Knows(s: State, c: Caller, ask: Ask, outcome: Result<Auth, RefreshFlight.Failure>) {
    c in s.callers && (s.callers[c] == Decided(ask, outcome) || s.callers[c] == Returned(ask, c, outcome))
  }

  /** A step makes a leader's outcome known, or it was known before. */
  lemma StepDecides(s: State, e: Event, s': State, c: Caller, ask: Ask, outcome: Result<Auth, RefreshFlight.Failure>)
    requires Inv(s) && Step(s, e, s') && Knows(s', c, ask, outcome)
    ensures Knows(s, c, ask, outcome) || IsCause(s, e, c, ask, outcome)
  {
    if c in s.callers {
      assert CallerOk(s, c);
    }
  }

  /** Every outcome of a leader has a cause in the run. */
  lemma {:induction false} OutcomeHasCause(
    trace: seq<State>, events: seq<Event>, i: nat, c: Caller, ask: Ask, outcome: Result<Auth, RefreshFlight.Failure>)
    requires IsRun(trace, events) && i < |trace| && Knows(trace[i], c, ask, outcome)
    ensures HasCause(trace, events, i, c, ask, outcome)
  {
    if i > 0 {
      RunKeepsInv(trace, events, i - 1);
      assert StepAt(trace, events, i - 1);
      StepDecides(trace[i - 1], events[i - 1], trace[i], c, ask, outcome);
      if Knows(trace[i - 1], c, ask, outcome) {
        OutcomeHasCause(trace, events, i - 1, c, ask, outcome);
      } else {
        assert IsCause(trace[i - 1], events[i - 1], c, ask, outcome);
      }
    }
  }

  lemma StaysKnown(s: State, e: Event, s': State, c: Caller, ask: Ask, outcome: Result<Auth, RefreshFlight.Failure>)
    requires Step(s, e, s') && Knows(s, c, ask, outcome)
    ensures Knows(s', c, ask, outcome)
  {
  }

  lemma {:induction false} KnownFromThenOn(
    trace: seq<State>, events: seq<Event>, k: nat, i: nat, c: Caller, ask: Ask,
    outcome: Result<Auth, RefreshFlight.Failure>)
    requires IsRun(trace, events) && k <= i < |trace| && Knows(trace[k], c, ask, outcome)
    ensures Knows(trace[i], c, ask, outcome)
  {
    if k < i {
      KnownFromThenOn(trace, events, k, i - 1, c, ask, outcome);
      assert StepAt(trace, events, i - 1);
      StaysKnown(trace[i - 1], events[i - 1], trace[i], c, ask, outcome);
    }
  }

  /** After its exchange a leader returns the exchange's answer and nothing else. */
  lemma LeaderReturnsAnswer(
    trace: seq<State>, events: seq<Event>, k: nat, i: nat, c: Caller, renewed: Option<Auth>)
    requires IsRun(trace, events) && k < i < |trace| && events[k] == Exchange(c, renewed)
    ensures c in trace[k].callers && Knows(trace[i], c, trace[k].callers[c].ask, AnswerOf(renewed))
    ensures renewed.Some? ==>
      trace[k].callers[c].ask.id in trace[k + 1].files && trace[k + 1].files[trace[k].callers[c].ask.id] == renewed.value
  {
    assert StepAt(trace, events, k);
    KnownFromThenOn(trace, events, k + 1, i, c, trace[k].callers[c].ask, AnswerOf(renewed));
  }

  /** A leader exchanges exactly when there are usable credentials that nobody has replaced meanwhile. */
  lemma LeaderExchangesIff(s: State, c: Caller, reloads: bool, now: int, s': State)
    requires Step(s, Start(c, reloads, now), s')
    ensures var ask := s.callers[c].ask;
      && c in s'.callers
      && (s'.callers[c].Exchanging? <==>
            reloads && Usable(s, ask) && !ReplacedMeanwhile(s.files[ask.id], ask, now))
      && (s'.callers[c].Exchanging? <==> s'.lock == Some(c))
  {
  }

  // ----- everybody else -----

  /** Whoever is in a call and is not cancelled returns the answer of the call's exchange. */
  lemma CallersReturnAnswer(
    trace: seq<State>, events: seq<Event>, k: nat, i: nat, leader: Caller, renewed: Option<Auth>, c: Caller)
    requires IsRun(trace, events) && k < i < |trace| && events[k] == Exchange(leader, renewed)
    requires c in trace[i].callers && trace[i].callers[c].Returned? && trace[i].callers[c].call == leader
    requires trace[i].callers[c].outcome != Result.Failure(Canceled)
    ensures trace[i].callers[c].outcome == AnswerOf(renewed)
  {
    JoinersGetLeadersResult(trace, events, i, c);
    LeaderReturnsAnswer(trace, events, k, i, leader, renewed);
  }

  lemma StepCancels(s: State, e: Event, s': State, c: Caller)
    requires Inv(s) && Step(s, e, s') && c in s'.callers && s'.callers[c].Returned?
    requires s'.callers[c].outcome == Result.Failure(Canceled)
    requires NoCanceledLeaders(s)
    ensures e == Cancel(c) || (c in s.callers && s.callers[c] == s'.callers[c])
  {
  }

  /** No leader is ever cancelled. */
  ghost predicate NoCanceledLeaders(s: State) {
    && (forall d :: d in s.calls && s.calls[d].Some? ==> s.calls[d].value != Result.Failure(Canceled))
    && (forall d :: d in s.callers && s.callers[d].Decided? ==> s.callers[d].outcome != Result.Failure(Canceled))
  }

  lemma {:induction false} LeadersAreNotCanceled(trace: seq<State>, events: seq<Event>, i: nat)
    requires IsRun(trace, events) && i < |trace|
    ensures NoCanceledLeaders(trace[i])
  {
    if i > 0 {
      LeadersAreNotCanceled(trace, events, i - 1);
      assert StepAt(trace, events, i - 1);
      StepCancelsNoLeader(trace[i - 1], events[i - 1], trace[i]);
    }
  }

  lemma StepCancelsNoLeader(s: State, e: Event, s': State)
    requires Step(s, e, s') && NoCanceledLeaders(s)
    ensures NoCanceledLeaders(s')
  {
  }

  /** Only a caller whose own context has ended returns that it was cancelled. */
  lemma {:induction false} CanceledHasCause(trace: seq<State>, events: seq<Event>, i: nat, c: Caller)
    requires IsRun(trace, events) && i < |trace|
    requires c in trace[i].callers && trace[i].callers[c].Returned?
    requires trace[i].callers[c].outcome == Result.Failure(Canceled)
    ensures exists k :: 0 <= k < i && events[k] == Cancel(c)
  {
    if i > 0 {
      RunKeepsInv(trace, events, i - 1);
      LeadersAreNotCanceled(trace, events, i - 1);
      assert StepAt(trace, events, i - 1);
      StepCancels(trace[i - 1], events[i - 1], trace[i], c);
      if events[i - 1] != Cancel(c) {
        CanceledHasCause(trace, events, i - 1, c);
      }
    }
  }

  /**
   * What anybody returns has its cause: its own cancellation, or what decided the call that it was in. So
   * a failed exchange is reported only after one has failed, and a token only if it was stored or exchanged.
   */
  lemma ReturnedHasCause(trace: seq<State>, events: seq<Event>, i: nat, c: Caller)
    requires IsRun(trace, events) && i < |trace| && c in trace[i].callers && trace[i].callers[c].Returned?
    ensures var (outcome, call) := (trace[i].callers[c].outcome, trace[i].callers[c].call);
      if outcome == Result.Failure(Canceled) then exists k :: 0 <= k < i && events[k] == Cancel(c)
      else
        && call in trace[i].callers && trace[i].callers[call].ask.id == trace[i].callers[c].ask.id
        && HasCause(trace, events, i, call, trace[i].callers[call].ask, outcome)
  {
    if trace[i].callers[c].outcome == Result.Failure(Canceled) {
      CanceledHasCause(trace, events, i, c);
    } else {
      JoinersGetLeadersResult(trace, events, i, c);
      var call := trace[i].callers[c].call;
      OutcomeHasCause(trace, events, i, call, trace[i].callers[call].ask, trace[i].callers[c].outcome);
    }
  }
}

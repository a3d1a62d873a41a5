// The single-flight credential refresh (AuthManager.refresh, internal/codexonly/server.go): one leader
// per auth exchanges the refresh token, as in section 6 of RFC 6749, and everybody who asks meanwhile
// gets the leader's result. Concurrent callers are interleaved critical sections.

module RefreshFlight {
  import opened Wrappers

  type AuthId = string
  type Token = string

  /** A caller of refresh; a call record is named after the caller that opened it. */
  type Caller = nat

  datatype Auth = Auth(token: Token, expires: Option<int>, active: bool)

  datatype Ask = Ask(id: AuthId, failed: Token, reuseChanged: bool, force: bool)

  datatype Failure = ReloadFailed | NotAvailable | ExchangeFailed | Canceled

  /** How far one call of refresh has come. */
  datatype Progress =
    | Waiting(ask: Ask, call: Caller)
    | Leading(ask: Ask)
    | Exchanging(ask: Ask)
    | Decided(ask: Ask, outcome: Result<Auth, Failure>)
    | Returned(ask: Ask, call: Caller, outcome: Result<Auth, Failure>)

  datatype State = State(
    refreshes: map<AuthId, Caller>, calls: map<Caller, Option<Result<Auth, Failure>>>,
    callers: map<Caller, Progress>, files: map<AuthId, Auth>, lock: Option<Caller>)

  const START := State(map[], map[], map[], map[], None)


  predicate Running(p: Progress) {
    p.Leading? || p.Exchanging? || p.Decided?
  }

  predicate Expired(a: Auth, now: int) {
    a.expires.Some? && a.expires.value <= now
  }

  // ----- the critical sections -----

  /** Joins the call in flight, or opens one. */
  function Entered(s: State, c: Caller, ask: Ask): State {
    if ask.id in s.refreshes then s.(callers := s.callers[c := Waiting(ask, s.refreshes[ask.id])])
    else
      s.(refreshes := s.refreshes[ask.id := c], calls := s.calls[c := None], callers := s.callers[c := Leading(ask)])
  }

  /** The stored auth that refreshCurrentAuth finds; only a forced refresh sees inactive ones. */
  function Current(s: State, ask: Ask): Option<Auth> {
    if ask.id in s.files && (s.files[ask.id].active || ask.force) then Some(s.files[ask.id]) else None
  }

  /** The stored token can be handed out as it is. */
  predicate Reusable(a: Auth, ask: Ask, now: int) {
    && !ask.force && a.token != "" && a.token != ask.failed
    && (ask.reuseChanged || !Expired(a, now))
  }

  /** The leader has the files to itself and decides whether an exchange is needed. */
  function Started(s: State, c: Caller, ask: Ask, reloads: bool, now: int): State {
    var current := Current(s, ask);
    if !reloads then s.(callers := s.callers[c := Decided(ask, Failure(ReloadFailed))])
    else if current.None? then s.(callers := s.callers[c := Decided(ask, Failure(NotAvailable))])
    else if Reusable(current.value, ask, now) then s.(callers := s.callers[c := Decided(ask, Success(current.value))])
    else s.(callers := s.callers[c := Exchanging(ask)], lock := Some(c))
  }

  /** The exchange is over; new credentials have been saved. */
  function Exchanged(s: State, c: Caller, ask: Ask, renewed: Option<Auth>): State {
    var t := s.(lock := None);
    match renewed
    case None => t.(callers := s.callers[c := Decided(ask, Failure(ExchangeFailed))])
    case Some(a) => t.(callers := s.callers[c := Decided(ask, Success(a))], files := s.files[ask.id := a])
  }

  /** The leader publishes its result and closes the call. */
  function Published(s: State, c: Caller, ask: Ask, outcome: Result<Auth, Failure>): State {
    s.(refreshes := s.refreshes - {ask.id}, calls := s.calls[c := Some(outcome)],
       callers := s.callers[c := Returned(ask, c, outcome)])
  }

  function Joined(s: State, c: Caller, ask: Ask, call: Caller, outcome: Result<Auth, Failure>): State {
    s.(callers := s.callers[c := Returned(ask, call, outcome)])
  }

  /** Somebody edits or removes an auth file. */
  function Edited(s: State, id: AuthId, file: Option<Auth>): State {
    s.(files := if file.Some? then s.files[id := file.value] else s.files - {id})
  }

  // ----- runs -----

  datatype Event =
    | Enter(caller: Caller, ask: Ask)
    | Start(caller: Caller, reloads: bool, now: int)
    | Exchange(caller: Caller, renewed: Option<Auth>)
    | Publish(caller: Caller)
    | Join(caller: Caller)
    | Cancel(caller: Caller)
    | Edit(id: AuthId, file: Option<Auth>)

  /** One critical section of one caller, or an edit from outside. */
  predicate Step(s: State, e: Event, s': State) {
    match e
    case Enter(c, ask) => c !in s.callers && s' == Entered(s, c, ask)
    case Start(c, reloads, now) =>
      && c in s.callers && s.callers[c].Leading? && s.lock.None?
      && s' == Started(s, c, s.callers[c].ask, reloads, now)
    case Exchange(c, renewed) =>
      && c in s.callers && s.callers[c].Exchanging? && s' == Exchanged(s, c, s.callers[c].ask, renewed)
    case Publish(c) =>
      && c in s.callers && s.callers[c].Decided?
      && s' == Published(s, c, s.callers[c].ask, s.callers[c].outcome)
    case Join(c) =>
      && c in s.callers && s.callers[c].Waiting?
      && (var call := s.callers[c].call;
          call in s.calls && s.calls[call].Some? && s' == Joined(s, c, s.callers[c].ask, call, s.calls[call].value))
    case Cancel(c) =>
      && c in s.callers && s.callers[c].Waiting?
      && s' == Joined(s, c, s.callers[c].ask, s.callers[c].call, Failure(Canceled))
    case Edit(id, file) => s' == Edited(s, id, file)
  }

  ghost predicate IsRun(trace: seq<State>, events: seq<Event>) {
    && |trace| == |events| + 1 && trace[0].(files := map[]) == START
    && forall i :: 0 <= i < |events| ==> StepAt(trace, events, i)
  }

  ghost predicate StepAt(trace: seq<State>, events: seq<Event>, i: nat)
    requires i < |events| && i + 1 < |trace|
  {
    Step(trace[i], events[i], trace[i + 1])
  }

  // ----- single flight -----

  /** The entry of one caller agrees with the tables. */
  ghost predicate CallerOk(s: State, c: Caller)
    requires c in s.callers
  {
    match s.callers[c]
    case Waiting(ask, call) => CallOf(s, call, ask.id)
    case Leading(ask) => Leads(s, c, ask.id) && s.lock != Some(c)
    case Exchanging(ask) => Leads(s, c, ask.id) && s.lock == Some(c)
    case Decided(ask, _) => Leads(s, c, ask.id) && s.lock != Some(c)
    case Returned(ask, call, outcome) =>
      && CallOf(s, call, ask.id) && s.lock != Some(c)
      && (s.calls[call] == Some(outcome) || (call != c && outcome == Failure(Canceled)))
  }

  predicate Leads(s: State, c: Caller, id: AuthId) {
    id in s.refreshes && s.refreshes[id] == c && c in s.calls && s.calls[c].None?
  }

  /** `call` was opened for `id`; it has a result exactly when its leader has returned. */
  predicate CallOf(s: State, call: Caller, id: AuthId) {
    && call in s.calls && call in s.callers && s.callers[call].ask.id == id
    && (if s.calls[call].None? then Running(s.callers[call])
        else
          s.callers[call] == Returned(s.callers[call].ask, call, s.calls[call].value))
  }

  ghost predicate Inv(s: State) {
    && (forall c :: c in s.callers ==> CallerOk(s, c))
    && (forall id :: id in s.refreshes ==> InFlight(s, id))
    && (s.lock.Some? ==> s.lock.value in s.callers && s.callers[s.lock.value].Exchanging?)
  }

  /** Every entry of the table belongs to a leader that is still running. */
  predicate InFlight(s: State, id: AuthId)
    requires id in s.refreshes
  {
    var c := s.refreshes[id];
    c in s.callers && Running(s.callers[c]) && s.callers[c].ask.id == id
  }

  lemma StartIsInv(files: map<AuthId, Auth>)
    ensures Inv(START.(files := files))
  {
  }

  /** What a step of caller `c` may change for another caller `d`: at most the call that `d` waits for. */
  ghost predicate SpareOthers(s: State, s': State, c: Caller) {
    && s.callers.Keys - {c} == s'.callers.Keys - {c}
    && s.calls.Keys - {c} == s'.calls.Keys - {c}
    && (forall d :: d in s.callers && d != c ==> SpareOne(s, s', d))
    && (forall id :: id in s.refreshes && s.refreshes[id] != c ==> id in s'.refreshes && s'.refreshes[id] == s.refreshes[id])
    && (s'.lock == s.lock || s'.lock == Some(c) || s'.lock == None)
  }

  predicate SpareOne(s: State, s': State, d: Caller)
    requires d in s.callers
  {
    d in s'.callers && s'.callers[d] == s.callers[d] && (d in s.calls ==> d in s'.calls && s'.calls[d] == s.calls[d])
  }

  /** The call of `c`, if it has opened one, is still there for those who wait for it. */
  ghost predicate CallLasts(s: State, s': State, c: Caller) {
    c in s.callers && c in s.calls ==>
      && (forall id :: CallOf(s, c, id) ==> CallOf(s', c, id))
      && (s.calls[c].Some? ==> c in s'.calls && s'.calls[c] == s.calls[c])
  }

  lemma OthersStayOk(s: State, s': State, c: Caller, d: Caller)
    requires Inv(s) && SpareOthers(s, s', c) && CallLasts(s, s', c)
    requires s.lock.Some? && s.lock != Some(c) ==> s'.lock == s.lock
    requires d in s.callers && d != c
    ensures CallerOk(s', d)
  {
    assert CallerOk(s, d) && SpareOne(s, s', d);
    var p := s.callers[d];
    if p.Waiting? || p.Returned? {
      if p.call in s.callers && p.call != c {
        assert SpareOne(s, s', p.call);
      }
    }
  }

  lemma OthersAreFlying(s: State, s': State, c: Caller, id: AuthId)
    requires Inv(s) && SpareOthers(s, s', c) && id in s.refreshes && s.refreshes[id] != c
    ensures id in s'.refreshes && InFlight(s', id)
  {
    assert InFlight(s, id) && SpareOne(s, s', s.refreshes[id]);
  }

  /** A step of one caller keeps the invariant if it does so for that caller. */
  lemma CallerKeepsInv(s: State, s': State, c: Caller)
    requires Inv(s) && SpareOthers(s, s', c) && CallLasts(s, s', c)
    requires s.lock.Some? && s.lock != Some(c) ==> s'.lock == s.lock
    requires c in s'.callers && CallerOk(s', c)
    requires forall id :: id in s'.refreshes && (id !in s.refreshes || s.refreshes[id] == c) ==> InFlight(s', id)
    requires s'.lock == Some(c) ==> s'.callers[c].Exchanging?
    ensures Inv(s')
  {
    forall d | d in s'.callers
      ensures CallerOk(s', d)
    {
      if d != c {
        assert d in s.callers by {
          assert d in s'.callers.Keys - {c};
        }
        OthersStayOk(s, s', c, d);
      }
    }
    forall id | id in s'.refreshes
      ensures InFlight(s', id)
    {
      if id in s.refreshes && s.refreshes[id] != c {
        OthersAreFlying(s, s', c, id);
      }
    }
    if s'.lock.Some? && s'.lock != Some(c) {
      assert SpareOne(s, s', s.lock.value);
    }
  }

  lemma EnterKeepsInv(s: State, c: Caller, ask: Ask)
    requires Inv(s) && c !in s.callers
    ensures Inv(Entered(s, c, ask))
  {
    if ask.id in s.refreshes {
      assert InFlight(s, ask.id) && CallerOk(s, s.refreshes[ask.id]);
    }
    CallerKeepsInv(s, Entered(s, c, ask), c);
  }

  lemma LeaderKeepsInv(s: State, s': State, c: Caller, p: Progress)
    requires Inv(s) && c in s.callers && Running(s.callers[c]) && Running(p) && p.ask == s.callers[c].ask
    requires s.callers[c].Exchanging? || s.lock.None?
    requires s' == s.(callers := s.callers[c := p], lock := if p.Exchanging? then Some(c) else None, files := s'.files)
    ensures Inv(s')
  {
    assert CallerOk(s, c);
    CallerKeepsInv(s, s', c);
  }

  lemma StartKeepsInv(s: State, c: Caller, reloads: bool, now: int)
    requires Inv(s) && c in s.callers && s.callers[c].Leading? && s.lock.None?
    ensures Inv(Started(s, c, s.callers[c].ask, reloads, now))
  {
    var s' := Started(s, c, s.callers[c].ask, reloads, now);
    LeaderKeepsInv(s, s', c, s'.callers[c]);
  }

  lemma ExchangeKeepsInv(s: State, c: Caller, renewed: Option<Auth>)
    requires Inv(s) && c in s.callers && s.callers[c].Exchanging?
    ensures Inv(Exchanged(s, c, s.callers[c].ask, renewed))
  {
    var s' := Exchanged(s, c, s.callers[c].ask, renewed);
    LeaderKeepsInv(s, s', c, s'.callers[c]);
  }

  lemma PublishKeepsInv(s: State, c: Caller)
    requires Inv(s) && c in s.callers && s.callers[c].Decided?
    ensures Inv(Published(s, c, s.callers[c].ask, s.callers[c].outcome))
  {
    assert CallerOk(s, c);
    CallerKeepsInv(s, Published(s, c, s.callers[c].ask, s.callers[c].outcome), c);
  }

  lemma JoinKeepsInv(s: State, c: Caller, outcome: Result<Auth, Failure>)
    requires Inv(s) && c in s.callers && s.callers[c].Waiting?
    requires outcome == Failure(Canceled) || s.calls[s.callers[c].call] == Some(outcome)
    ensures Inv(Joined(s, c, s.callers[c].ask, s.callers[c].call, outcome))
  {
    assert CallerOk(s, c);
    CallerKeepsInv(s, Joined(s, c, s.callers[c].ask, s.callers[c].call, outcome), c);
  }

  lemma StepKeepsInv(s: State, e: Event, s': State)
    requires Inv(s) && Step(s, e, s')
    ensures Inv(s')
  {
    match e
    case Enter(c, ask) => EnterKeepsInv(s, c, ask);
    case Start(c, reloads, now) => StartKeepsInv(s, c, reloads, now);
    case Exchange(c, renewed) => ExchangeKeepsInv(s, c, renewed);
    case Publish(c) => PublishKeepsInv(s, c);
    case Join(c) => JoinKeepsInv(s, c, s.calls[s.callers[c].call].value);
    case Cancel(c) => JoinKeepsInv(s, c, Failure(Canceled));
    case Edit(_, _) => CallerUnchanged(s, s');
  }

  lemma CallerUnchanged(s: State, s': State)
    requires Inv(s) && s' == s.(files := s'.files)
    ensures Inv(s')
  {
    forall c | c in s'.callers
      ensures CallerOk(s', c)
    {
      assert CallerOk(s, c);
    }
    forall id | id in s'.refreshes
      ensures InFlight(s', id)
    {
      assert InFlight(s, id);
    }
  }

  lemma {:induction false} RunKeepsInv(trace: seq<State>, events: seq<Event>, i: nat)
    requires IsRun(trace, events) && i < |trace|
    ensures Inv(trace[i])
  {
    if i == 0 {
      StartIsInv(trace[0].files);
    } else {
      RunKeepsInv(trace, events, i - 1);
      assert StepAt(trace, events, i - 1);
      StepKeepsInv(trace[i - 1], events[i - 1], trace[i]);
    }
  }

  /** At most one refresh per auth is running, whatever the interleaving. */
  lemma OneLeaderPerAuth(trace: seq<State>, events: seq<Event>, i: nat, c: Caller, d: Caller)
    requires IsRun(trace, events) && i < |trace|
    requires c in trace[i].callers && Running(trace[i].callers[c])
    requires d in trace[i].callers && Running(trace[i].callers[d])
    requires trace[i].callers[c].ask.id == trace[i].callers[d].ask.id
    ensures c == d
  {
    RunKeepsInv(trace, events, i);
    assert CallerOk(trace[i], c) && CallerOk(trace[i], d);
  }

  /** Whoever joined a call and was not cancelled returns exactly what the leader of that call returned. */
  lemma JoinersGetLeadersResult(trace: seq<State>, events: seq<Event>, i: nat, c: Caller)
    requires IsRun(trace, events) && i < |trace|
    requires c in trace[i].callers && trace[i].callers[c].Returned?
    requires trace[i].callers[c].outcome != Failure(Canceled)
    ensures
      var p := trace[i].callers[c];
      && p.call in trace[i].callers
      && trace[i].callers[p.call] == Returned(trace[i].callers[p.call].ask, p.call, p.outcome)
      && trace[i].callers[p.call].ask.id == p.ask.id
  {
    RunKeepsInv(trace, events, i);
    assert CallerOk(trace[i], c);
  }

  // ----- one exchange per failed token -----

  /** What RefreshAfterUnauthorized asks for after upstream rejected `failed`. */
  predicate Repairs(ask: Ask, id: AuthId, failed: Token) {
    ask == Ask(id, failed, true, false)
  }

  predicate IsOther(token: Token, failed: Token) {
    token != "" && token != failed
  }

  /** New credentials for `id`, exchanged or edited in, never are the rejected ones. */
  predicate RenewsAt(s: State, e: Event, id: AuthId, failed: Token) {
    match e
    case Exchange(c, Some(a)) => c in s.callers && s.callers[c].ask.id == id ==> IsOther(a.token, failed)
    case Edit(edited, Some(a)) => edited == id ==> IsOther(a.token, failed)
    case _ => true
  }

  ghost predicate Renews(trace: seq<State>, events: seq<Event>, id: AuthId, failed: Token)
    requires |trace| > |events|
  {
    forall i :: 0 <= i < |events| ==> RenewsAt(trace[i], events[i], id, failed)
  }

  /** Event `i` is a successful exchange on behalf of callers whose token `failed` was rejected. */
  predicate ExchangesFor(trace: seq<State>, events: seq<Event>, i: nat, id: AuthId, failed: Token)
    requires i < |events| < |trace|
  {
    match events[i]
    case Exchange(c, Some(_)) => c in trace[i].callers && Repairs(trace[i].callers[c].ask, id, failed)
    case _ => false
  }

  /** The rejected token is gone for good, and nobody is exchanging it any more. */
  ghost predicate Replaced(s: State, id: AuthId, failed: Token) {
    && (id in s.files ==> IsOther(s.files[id].token, failed))
    && forall c :: c in s.callers && s.callers[c].Exchanging? ==> !Repairs(s.callers[c].ask, id, failed)
  }

  lemma ExchangeReplaces(s: State, e: Event, s': State, id: AuthId, failed: Token)
    requires Inv(s) && Step(s, e, s') && RenewsAt(s, e, id, failed)
    requires e.Exchange? && e.renewed.Some? && s.callers[e.caller].ask.id == id
    ensures Replaced(s', id, failed)
  {
    assert CallerOk(s, e.caller);
    forall c | c in s.callers && c != e.caller
      ensures !s.callers[c].Exchanging?
    {
      assert CallerOk(s, c);
    }
  }

  lemma StaysReplaced(s: State, e: Event, s': State, id: AuthId, failed: Token)
    requires Step(s, e, s') && RenewsAt(s, e, id, failed) && Replaced(s, id, failed)
    ensures Replaced(s', id, failed)
  {
  }

  lemma {:induction false} ReplacedFromThenOn(
    trace: seq<State>, events: seq<Event>, i: nat, j: nat, id: AuthId, failed: Token)
    requires IsRun(trace, events) && Renews(trace, events, id, failed)
    requires i < j < |trace| && ExchangesFor(trace, events, i, id, failed)
    ensures Replaced(trace[j], id, failed)
  {
    assert StepAt(trace, events, j - 1) && RenewsAt(trace[j - 1], events[j - 1], id, failed);
    if j == i + 1 {
      RunKeepsInv(trace, events, i);
      ExchangeReplaces(trace[i], events[i], trace[j], id, failed);
    } else {
      ReplacedFromThenOn(trace, events, i, j - 1, id, failed);
      StaysReplaced(trace[j - 1], events[j - 1], trace[j], id, failed);
    }
  }

  /**
   * However many callers come back with the same rejected token, and in whatever order, at most one
   * exchange succeeds for them: none follows the first.
   */
  lemma OneExchangePerFailedToken(
    trace: seq<State>, events: seq<Event>, i: nat, j: nat, id: AuthId, failed: Token)
    requires IsRun(trace, events) && Renews(trace, events, id, failed)
    requires i < j < |events| && ExchangesFor(trace, events, i, id, failed)
    ensures !ExchangesFor(trace, events, j, id, failed)
  {
    ReplacedFromThenOn(trace, events, i, j, id, failed);
    assert StepAt(trace, events, j);
  }

  // ----- who gets a new token -----

  /** A leader whose result can only be a token other than `failed`. */
  predicate Escapes(ask: Ask, id: AuthId, failed: Token) {
    ask.id == id && (ask.force || ask.failed == failed)
  }

  ghost predicate GivesOther(s: State, id: AuthId, failed: Token) {
    forall c :: c in s.callers ==> GivesOtherTo(s, c, id, failed)
  }

  predicate GivesOtherTo(s: State, c: Caller, id: AuthId, failed: Token)
    requires c in s.callers
  {
    var p := s.callers[c];
    (p.Decided? || (p.Returned? && p.call == c)) && Escapes(p.ask, id, failed) && p.outcome.Success? ==>
      IsOther(p.outcome.value.token, failed)
  }

  lemma StepGivesOther(s: State, e: Event, s': State, id: AuthId, failed: Token)
    requires Inv(s) && Step(s, e, s') && RenewsAt(s, e, id, failed) && GivesOther(s, id, failed)
    ensures GivesOther(s', id, failed)
  {
    forall c | c in s'.callers
      ensures GivesOtherTo(s', c, id, failed)
    {
      if c in s.callers {
        assert GivesOtherTo(s, c, id, failed) && CallerOk(s, c);
      }
    }
  }

  lemma {:induction false} RunGivesOther(trace: seq<State>, events: seq<Event>, i: nat, id: AuthId, failed: Token)
    requires IsRun(trace, events) && Renews(trace, events, id, failed) && i < |trace|
    ensures GivesOther(trace[i], id, failed)
  {
    if i > 0 {
      RunGivesOther(trace, events, i - 1, id, failed);
      RunKeepsInv(trace, events, i - 1);
      assert StepAt(trace, events, i - 1) && RenewsAt(trace[i - 1], events[i - 1], id, failed);
      StepGivesOther(trace[i - 1], events[i - 1], trace[i], id, failed);
    }
  }

  /**
   * A caller is never handed the token it reported, if the leader of the call it joined was forced or
   * had the same token rejected.
   */
  lemma SuccessMeansNewToken(trace: seq<State>, events: seq<Event>, i: nat, c: Caller, id: AuthId, failed: Token)
    requires IsRun(trace, events) && Renews(trace, events, id, failed) && i < |trace|
    requires c in trace[i].callers && trace[i].callers[c].Returned? && trace[i].callers[c].outcome.Success?
    requires trace[i].callers[c].call in trace[i].callers
    requires Escapes(trace[i].callers[trace[i].callers[c].call].ask, id, failed)
    ensures IsOther(trace[i].callers[c].outcome.value.token, failed)
  {
    JoinersGetLeadersResult(trace, events, i, c);
    RunGivesOther(trace, events, i, id, failed);
    assert GivesOtherTo(trace[i], trace[i].callers[c].call, id, failed);
  }

  /**
   * Otherwise it can be: a leader with an older rejected token reuses the stored one, and everybody who
   * joined gets that: forced callers without any exchange, and callers who have just reported this token.
   */
  lemma JoinerMayGetStoredToken(id: AuthId, stored: Auth, older: Token, joiner: Ask, now: int)
    returns (trace: seq<State>, events: seq<Event>)
    requires stored.active && IsOther(stored.token, older) && joiner.id == id
    ensures IsRun(trace, events) && forall e :: e in events ==> !e.Exchange?
    ensures
      var last := trace[|trace| - 1];
      1 in last.callers && last.callers[1] == Returned(joiner, 0, Success(stored)) && last.files == map[id := stored]
  {
    var leader := Ask(id, older, true, false);
    var s0 := START.(files := map[id := stored]);
    var s1 := Entered(s0, 0, leader);
    var s2 := Entered(s1, 1, joiner);
    var s3 := Started(s2, 0, leader, true, now);
    var s4 := Published(s3, 0, leader, Success(stored));
    var s5 := Joined(s4, 1, joiner, 0, Success(stored));
    trace := [s0, s1, s2, s3, s4, s5];
    events := [Enter(0, leader), Enter(1, joiner), Start(0, true, now), Publish(0), Join(1)];
    assert StepAt(trace, events, 0) && StepAt(trace, events, 1) && StepAt(trace, events, 2);
    assert StepAt(trace, events, 3) && StepAt(trace, events, 4);
  }

  // ----- the manager's own state -----

  class AuthManager {
    var refreshes: map<AuthId, Caller>
    var calls: map<Caller, Option<Result<Auth, Failure>>>
    var callers: map<Caller, Progress>
    var files: map<AuthId, Auth>
    var lock: Option<Caller>

    ghost function Snapshot(): State
      reads this
    {
      State(refreshes, calls, callers, files, lock)
    }

    constructor (files: map<AuthId, Auth>)
      ensures Snapshot() == START.(files := files)
    {
      refreshes, calls, callers, lock := map[], map[], map[], None;
      this.files := files;
    }

    /** The first critical section under refreshMu. */
    method Arrive(c: Caller, ask: Ask) returns (leads: bool)
      requires c !in callers
      modifies this
      ensures Snapshot() == Entered(old(Snapshot()), c, ask) && Step(old(Snapshot()), Enter(c, ask), Snapshot())
      ensures leads == (ask.id !in old(refreshes))
    {
      if ask.id in refreshes {
        callers := callers[c := Waiting(ask, refreshes[ask.id])];
        return false;
      }
      calls := calls[c := None];
      refreshes := refreshes[ask.id := c];
      callers := callers[c := Leading(ask)];
      return true;
    }

    /** refreshCurrentAuth up to the exchange, with the auth files locked. */
    method Decide(c: Caller, reloads: bool, now: int) returns (exchanging: bool)
      requires c in callers && callers[c].Leading? && lock.None?
      modifies this
      ensures Step(old(Snapshot()), Start(c, reloads, now), Snapshot())
      ensures exchanging == callers[c].Exchanging?
    {
      var ask := callers[c].ask;
      if !reloads {
        callers := callers[c := Decided(ask, Failure(ReloadFailed))];
        return false;
      }
      var current: Option<Auth> := None;
      if ask.id in files && (ask.force || files[ask.id].active) {
        current := Some(files[ask.id]);
      }
      if current.None? {
        callers := callers[c := Decided(ask, Failure(NotAvailable))];
        return false;
      }
      if !ask.force && current.value.token != "" && current.value.token != ask.failed {
        if ask.reuseChanged || !Expired(current.value, now) {
          callers := callers[c := Decided(ask, Success(current.value))];
          return false;
        }
      }
      callers, lock := callers[c := Exchanging(ask)], Some(c);
      return true;
    }

    /** The refresher's answer; it has saved the new credentials. */
    method Finish(c: Caller, renewed: Option<Auth>)
      requires c in callers && callers[c].Exchanging?
      modifies this
      ensures Step(old(Snapshot()), Exchange(c, renewed), Snapshot())
    {
      var ask := callers[c].ask;
      lock := None;
      if renewed.None? {
        callers := callers[c := Decided(ask, Failure(ExchangeFailed))];
        return;
      }
      files := files[ask.id := renewed.value];
      callers := callers[c := Decided(ask, Success(renewed.value))];
    }

    /** The second critical section under refreshMu. */
    method Close(c: Caller) returns (outcome: Result<Auth, Failure>)
      requires c in callers && callers[c].Decided?
      modifies this
      ensures outcome == old(callers[c].outcome) && Step(old(Snapshot()), Publish(c), Snapshot())
    {
      var ask := callers[c].ask;
      outcome := callers[c].outcome;
      calls := calls[c := Some(outcome)];
      refreshes := refreshes - {ask.id};
      callers := callers[c := Returned(ask, c, outcome)];
    }

    /** A joiner's select between its context and the leader's result. */
    method Await(c: Caller, canceled: bool) returns (outcome: Option<Result<Auth, Failure>>)
      requires Inv(Snapshot()) && c in callers && callers[c].Waiting?
      modifies this
      ensures
        if canceled then outcome == Some(Failure(Canceled)) && Step(old(Snapshot()), Cancel(c), Snapshot())
        else if outcome.Some? then
          Some(outcome.value) == old(calls[callers[c].call]) && Step(old(Snapshot()), Join(c), Snapshot())
        else Snapshot() == old(Snapshot())
    {
      assert CallerOk(Snapshot(), c);
      var ask, call := callers[c].ask, callers[c].call;
      if canceled {
        outcome := Some(Failure(Canceled));
      } else {
        outcome := calls[call];
      }
      if outcome.Some? {
        callers := callers[c := Returned(ask, call, outcome.value)];
      }
    }
  }
}

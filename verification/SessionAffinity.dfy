// The session-affinity table as a value: what one transaction does to it,
// and what every run of transactions keeps (internal/codexonly/session_affinity.go).

module SessionAffinity {
  import opened Wrappers
  import GoText

  type Digest = string
  type AuthId = string

  // Times are nanoseconds since Go's zero time, so IsZero() is == 0.
  const MINUTE := 60_000_000_000
  const EXPIRY := 60 * MINUTE
  const RENEWAL_THRESHOLD := 30 * MINUTE
  const CLEANUP_BATCH_SIZE := 100
  const DIGEST_LENGTH := 64

  datatype Row = Row(
    binding: Digest, tenant: Digest, auth: AuthId,
    created: int, updated: int, expires: int)

  type Table = map<Digest, Row>

  predicate IsHex(c: char) {
    '0' <= c <= '9' || 'a' <= c <= 'f' || 'A' <= c <= 'F'
  }

  predicate WellFormed(d: Digest) {
    |d| == DIGEST_LENGTH && forall i :: 0 <= i < |d| ==> IsHex(d[i])
  }

  predicate AllWellFormed(ds: set<Digest>) {
    forall d :: d in ds ==> WellFormed(d)
  }

  predicate Live(r: Row, now: int) {
    r.expires > now
  }

  // ----- loading, choosing and writing -----

  function Bindings(t: Table, ds: set<Digest>): set<Digest> {
    set d | d in ds && d in t :: t[d].binding
  }

  /** The binding digests whose whole groups a load pulls in. */
  function GroupsToLoad(t: Table, ds: set<Digest>, bs: set<Digest>): set<Digest> {
    set b | b in bs + Bindings(t, ds) && WellFormed(b)
  }

  /** The digests of the rows that a load returns. */
  function Loaded(t: Table, ds: set<Digest>, bs: set<Digest>): (keys: set<Digest>)
    ensures keys <= t.Keys
  {
    set d | d in t && (d in ds || t[d].binding in GroupsToLoad(t, ds, bs))
  }

  /** Row order used to pick a winner: oldest first, ties by digest. */
  predicate Older(t: Table, a: Digest, b: Digest)
    requires a in t && b in t
  {
    t[a].created < t[b].created || (t[a].created == t[b].created && GoText.Less(a, b))
  }

  ghost predicate IsWinner(t: Table, keys: set<Digest>, now: int, w: Digest)
    requires keys <= t.Keys
  {
    && w in keys && Live(t[w], now)
    && forall k :: k in keys && k != w && Live(t[k], now) ==> Older(t, w, k)
  }

  ghost function Winner(t: Table, keys: set<Digest>, now: int): (w: Option<Digest>)
    requires keys <= t.Keys
    ensures w.Some? ==> IsWinner(t, keys, now, w.value)
  {
    if w :| IsWinner(t, keys, now, w) then Some(w) else None
  }

  lemma WinnerIsUnique(t: Table, keys: set<Digest>, now: int, v: Digest, w: Digest)
    requires keys <= t.Keys
    requires IsWinner(t, keys, now, v) && IsWinner(t, keys, now, w)
    ensures v == w
  {
    if v != w && t[v].created == t[w].created {
      GoText.LessIsAsymmetric(v, w);
    }
  }

  /** A load with a live row has a winner, whatever order the rows come back in. */
  lemma {:induction false} WinnerExists(t: Table, keys: set<Digest>, now: int, live: Digest)
    requires keys <= t.Keys && live in keys && Live(t[live], now)
    ensures Winner(t, keys, now).Some?
    decreases |keys|
  {
    if others :| others in keys && others != live && Live(t[others], now) && !Older(t, live, others) {
      WinnerExists(t, keys - {live}, now, others);
      var w := Winner(t, keys - {live}, now).value;
      GoText.LessIsTotal(live, others);
      if w != others && t[w].created == t[others].created == t[live].created {
        GoText.LessIsTransitive(w, others, live);
      }
      assert IsWinner(t, keys, now, w);
    } else {
      assert IsWinner(t, keys, now, live);
    }
  }

  lemma NoWinnerMeansNoneLive(t: Table, keys: set<Digest>, now: int)
    requires keys <= t.Keys
    ensures Winner(t, keys, now).None? <==> forall k :: k in keys ==> !Live(t[k], now)
  {
    forall k | k in keys && Live(t[k], now)
      ensures Winner(t, keys, now).Some?
    {
      WinnerExists(t, keys, now, k);
    }
  }

  ghost predicate IsLeast(d: Digest, ds: set<Digest>) {
    d in ds && forall e :: e in ds && e != d ==> GoText.Less(d, e)
  }

  /** canonicalSessionAffinityDigest: the first digest in sorted order. */
  function Canonical(ds: seq<Digest>): (d: Digest)
    requires ds != []
    ensures IsLeast(d, set e | e in ds)
  {
    if |ds| == 1 then ds[0]
    else
      var rest := Canonical(ds[1..]);
      GoText.LessIsTotal(ds[0], rest);
      assert ds == [ds[0]] + ds[1..];
      if GoText.Less(ds[0], rest) then
        assert forall e :: e in ds[1..] && e != rest && GoText.Less(rest, e) ==> GoText.Less(ds[0], e) by {
          forall e | e in ds[1..] && e != rest && GoText.Less(rest, e) ensures GoText.Less(ds[0], e) {
            GoText.LessIsTransitive(ds[0], rest, e);
          }
        }
        ds[0]
      else rest
  }

  lemma LeastIsUnique(ds: set<Digest>, a: Digest, b: Digest)
    requires IsLeast(a, ds) && IsLeast(b, ds)
    ensures a == b
  {
    if a != b {
      GoText.LessIsAsymmetric(a, b);
    }
  }

  lemma {:induction false} SetAsSeq(ds: set<Digest>) returns (s: seq<Digest>)
    ensures forall d :: d in s <==> d in ds
    decreases |ds|
  {
    if ds == {} {
      s := [];
    } else {
      var d :| d in ds;
      var rest := SetAsSeq(ds - {d});
      s := [d] + rest;
    }
  }

  ghost function Least(ds: set<Digest>): (d: Digest)
    requires ds != {}
    ensures IsLeast(d, ds)
  {
    assert exists d :: IsLeast(d, ds) by {
      var s := SetAsSeq(ds);
      assert (set d | d in s) == ds;
      assert IsLeast(Canonical(s), ds);
    }
    var d :| IsLeast(d, ds); d
  }

  function WithTenant(r: Row, tenant: Digest): Row {
    if r.tenant == "" then r.(tenant := tenant) else r
  }

  /** The defaults that writeSessionAffinityAliases fills in before it writes. */
  function Defaulted(r: Row, now: int, canonical: Digest): Row {
    var updated := if r.updated == 0 then now else r.updated;
    r.(binding := if r.binding == "" then canonical else r.binding,
       created := if r.created == 0 then now else r.created,
       updated := updated,
       expires := if r.expires == 0 || !Live(r, now) then updated + EXPIRY else r.expires)
  }

  function WriteAll(t: Table, keys: set<Digest>, r: Row): Table {
    t + map d | d in keys :: r
  }

  // ----- one transaction each -----

  /** All digests that a transaction rewrites: the requested ones and the loaded ones. */
  function Rewritten(t: Table, ds: set<Digest>, bs: set<Digest>): set<Digest> {
    ds + Loaded(t, ds, bs)
  }

  ghost function FreshRow(all: set<Digest>, tenant: Digest, auth: AuthId, now: int): Row
    requires all != {}
  {
    Row(Least(all), tenant, auth, now, now, now + EXPIRY)
  }

  function Renewed(r: Row, now: int): Row {
    r.(updated := now, expires := now + EXPIRY)
  }

  /** The row that Bind writes to every alias. */
  ghost function BindRow(t: Table, tenant: Digest, ds: set<Digest>, candidate: AuthId, now: int): Row
    requires ds != {}
  {
    var all := Rewritten(t, ds, {});
    var row := match Winner(t, Loaded(t, ds, {}), now)
      case None => FreshRow(all, tenant, candidate, now)
      case Some(w) => t[w];
    Defaulted(WithTenant(row, tenant), now, Least(all))
  }

  /** The row that Rebind writes to every alias. */
  ghost function RebindRow(
    t: Table, ds: set<Digest>, b: Digest, tenant: Digest, expected: AuthId, candidate: AuthId, now: int): Row
    requires ds != {}
  {
    var all := Rewritten(t, ds, {b});
    var row := match Winner(t, Loaded(t, ds, {b}), now)
      case None => FreshRow(all, tenant, candidate, now)
      case Some(w) => if t[w].auth == expected then Renewed(t[w].(auth := candidate), now) else t[w];
    Defaulted(WithTenant(row, tenant), now, Least(all))
  }

  /** The row that a refresh writes, if there is a live row to refresh. */
  ghost function RefreshRow(t: Table, tenant: Digest, ds: set<Digest>, now: int): Option<Row>
    requires ds != {}
  {
    match Winner(t, Loaded(t, ds, {}), now)
    case None => None
    case Some(w) =>
      var row := if t[w].updated + RENEWAL_THRESHOLD > now then t[w] else Renewed(t[w], now);
      Some(Defaulted(WithTenant(row, tenant), now, Least(Rewritten(t, ds, {}))))
  }

  /** sessionAffinityNeedsWrite for the winner of the load. */
  ghost predicate NeedsWrite(t: Table, tenant: Digest, ds: set<Digest>, winner: Row, now: int) {
    || winner.updated + RENEWAL_THRESHOLD <= now
    || exists d :: d in ds &&
         (d !in t || !Live(t[d], now) || t[d].auth != winner.auth || t[d].binding != winner.binding ||
          (tenant != "" && t[d].tenant != tenant))
  }

  // ----- operations and runs -----

  datatype Op =
    | Bind(tenant: Digest, digests: set<Digest>, candidate: AuthId)
    | Rebind(digests: set<Digest>, binding: Digest, tenant: Digest, expected: AuthId, candidate: AuthId)
    | Refresh(tenant: Digest, digests: set<Digest>)
    | Lookup(tenant: Digest, digests: set<Digest>)
    | DeleteByAuths(auths: set<AuthId>)
    | DeleteExceptAuths(auths: set<AuthId>)
    | DeleteByTenant(tenant: Digest)
    | DeleteByTenantSession(tenant: Digest, digests: set<Digest>)
    | Cleanup(batch: set<Digest>)
    | Tick(elapsed: nat)

  /** What an auth ID looks like once trimmed and found non-empty. */
  predicate IsAuthId(auth: AuthId) {
    auth != "" && GoText.Trimmed(auth)
  }

  /** Digests and candidates reach a transaction normalized; empty ones are refused before it starts. */
  predicate Admissible(op: Op) {
    && (op.Bind? || op.Rebind? || op.Refresh? || op.Lookup? ==> op.digests != {} && AllWellFormed(op.digests))
    && (op.Bind? || op.Rebind? ==> IsAuthId(op.candidate))
  }

  function WithoutTenantSession(t: Table, tenant: Digest, ds: set<Digest>): Table {
    var groups := set d | d in t && t[d].tenant == tenant && d in ds :: t[d].binding;
    map d | d in t && !(t[d].tenant == tenant && t[d].binding in groups) :: t[d]
  }

  ghost function RefreshTable(t: Table, tenant: Digest, ds: set<Digest>, now: int): Table
    requires ds != {}
  {
    match RefreshRow(t, tenant, ds, now)
    case None => t
    case Some(row) => WriteAll(t, Rewritten(t, ds, {}), row)
  }

  ghost function LookupTable(t: Table, tenant: Digest, ds: set<Digest>, now: int): Table
    requires ds != {}
  {
    match Winner(t, Loaded(t, ds, {}), now)
    case None => t
    case Some(w) =>
      if NeedsWrite(t, tenant, ds, WithTenant(t[w], tenant), now) then RefreshTable(t, tenant, ds, now) else t
  }

  ghost function Apply(t: Table, now: int, op: Op): Table
    requires Admissible(op)
  {
    match op
    case Bind(tenant, ds, candidate) =>
      WriteAll(t, Rewritten(t, ds, {}), BindRow(t, tenant, ds, candidate, now))
    case Rebind(ds, b, tenant, expected, candidate) =>
      WriteAll(t, Rewritten(t, ds, {b}), RebindRow(t, ds, b, tenant, expected, candidate, now))
    case Refresh(tenant, ds) => RefreshTable(t, tenant, ds, now)
    case Lookup(tenant, ds) => LookupTable(t, tenant, ds, now)
    case DeleteByAuths(auths) => map d | d in t && t[d].auth !in auths :: t[d]
    case DeleteExceptAuths(auths) => map d | d in t && t[d].auth in auths :: t[d]
    case DeleteByTenant(tenant) => map d | d in t && t[d].tenant != tenant :: t[d]
    case DeleteByTenantSession(tenant, ds) => WithoutTenantSession(t, tenant, ds)
    case Cleanup(batch) => map d | d in t && (d !in batch || Live(t[d], now)) :: t[d]
    case Tick(_) => t
  }

  function Elapsed(op: Op): nat {
    if op.Tick? then op.elapsed else 0
  }

  /** A run: the tables and times between consecutive operations. */
  datatype Trace = Trace(tables: seq<Table>, times: seq<int>, ops: seq<Op>)

  ghost predicate StepsTo(t: Table, now: int, op: Op, t': Table, now': int) {
    Admissible(op) && t' == Apply(t, now, op) && now' == now + Elapsed(op)
  }

  ghost predicate IsRun(r: Trace) {
    && |r.tables| == |r.times| == |r.ops| + 1 && r.times[0] > 0
    && forall i :: 0 <= i < |r.ops| ==> StepAt(r, i)
  }

  ghost predicate StepAt(r: Trace, i: nat)
    requires i < |r.ops| && |r.tables| == |r.times| == |r.ops| + 1
  {
    StepsTo(r.tables[i], r.times[i], r.ops[i], r.tables[i + 1], r.times[i + 1])
  }

  // ----- the group invariant -----

  /** What every stored row satisfies, live or not. */
  ghost predicate RowsOk(t: Table) {
    forall d :: d in t ==>
      && WellFormed(d) && WellFormed(t[d].binding) && IsAuthId(t[d].auth)
      && t[d].created != 0 && t[d].updated != 0 && t[d].expires == t[d].updated + EXPIRY
  }

  /** Every live row names a live row of its own group, and holds exactly that row. */
  ghost predicate GroupsOk(t: Table, now: int) {
    forall d :: d in t && Live(t[d], now) ==> t[d].binding in t && t[t[d].binding] == t[d]
  }

  ghost predicate Inv(t: Table, now: int) {
    RowsOk(t) && GroupsOk(t, now)
  }

  /** The invariant in the words of the design: live rows of one group agree on everything. */
  lemma GroupMembersAgree(t: Table, now: int, d: Digest, e: Digest)
    requires Inv(t, now)
    requires d in t && e in t && Live(t[d], now) && Live(t[e], now) && t[d].binding == t[e].binding
    ensures t[d].auth == t[e].auth && t[d].tenant == t[e].tenant
    ensures t[d].created == t[e].created && t[d].updated == t[e].updated && t[d].expires == t[e].expires
    ensures var b := t[d].binding; b in t && Live(t[b], now) && t[b].binding == b
  {
    assert t[t[d].binding] == t[d] && t[t[e].binding] == t[e];
  }

  /** A write that covers every live row of each group it touches keeps the groups. */
  lemma WriteKeepsGroups(t: Table, now: int, keys: set<Digest>, row: Row)
    requires Inv(t, now) && AllWellFormed(keys)
    requires row.binding in keys && IsAuthId(row.auth) && row.created != 0 && row.updated != 0 && row.expires == row.updated + EXPIRY
    requires forall d :: d in t && Live(t[d], now) && d !in keys ==> t[d].binding !in keys
    ensures Inv(WriteAll(t, keys, row), now)
  {
  }

  /** The closure argument: a load takes a live group whole or leaves it alone. */
  lemma LoadIsClosed(t: Table, now: int, ds: set<Digest>, bs: set<Digest>)
    requires Inv(t, now) && AllWellFormed(ds)
    ensures var all := Rewritten(t, ds, bs);
      && AllWellFormed(all)
      && (forall d :: d in t && Live(t[d], now) && d !in all ==> t[d].binding !in all)
      && (forall d :: d in all && d in t && Live(t[d], now) ==> t[d].binding in all)
  {
    var all := Rewritten(t, ds, bs);
    forall d | d in t && Live(t[d], now)
      ensures d !in all ==> t[d].binding !in all
      ensures d in all ==> t[d].binding in all
    {
      var b := t[d].binding;
      assert t[b].binding == b;
      if d in ds || b in ds {
        assert b in Bindings(t, ds);
      }
    }
  }

  /** A transaction that writes a winner's row, or a fresh one when nothing is live, keeps the invariant. */
  lemma TransactionKeepsInv(t: Table, now: int, ds: set<Digest>, bs: set<Digest>, row: Row)
    requires Inv(t, now) && ds != {} && AllWellFormed(ds)
    requires IsAuthId(row.auth) && row.created != 0 && row.updated != 0 && row.expires == row.updated + EXPIRY
    requires match Winner(t, Loaded(t, ds, bs), now)
      case None => row.binding == Least(Rewritten(t, ds, bs))
      case Some(w) => row.binding == t[w].binding
    ensures Inv(WriteAll(t, Rewritten(t, ds, bs), row), now)
  {
    LoadIsClosed(t, now, ds, bs);
    WriteKeepsGroups(t, now, Rewritten(t, ds, bs), row);
  }

  lemma ApplyKeepsInv(t: Table, now: int, op: Op)
    requires Inv(t, now) && Admissible(op) && now > 0
    ensures Inv(Apply(t, now, op), now + Elapsed(op))
  {
    match op
    case Bind(tenant, ds, candidate) => BindKeepsInv(t, now, tenant, ds, candidate);
    case Rebind(ds, b, tenant, expected, candidate) => RebindKeepsInv(t, now, ds, b, tenant, expected, candidate);
    case Refresh(tenant, ds) => RefreshKeepsInv(t, now, tenant, ds);
    case Lookup(tenant, ds) => LookupKeepsInv(t, now, tenant, ds);
    case Tick(elapsed) =>
    case _ => DeleteKeepsInv(t, now, op);
  }

  lemma BindKeepsInv(t: Table, now: int, tenant: Digest, ds: set<Digest>, candidate: AuthId)
    requires Inv(t, now) && now > 0 && ds != {} && AllWellFormed(ds) && IsAuthId(candidate)
    ensures Inv(WriteAll(t, Rewritten(t, ds, {}), BindRow(t, tenant, ds, candidate, now)), now)
  {
    WinnerBindingIsSet(t, Loaded(t, ds, {}), now);
    TransactionKeepsInv(t, now, ds, {}, BindRow(t, tenant, ds, candidate, now));
  }

  lemma RebindKeepsInv(
    t: Table, now: int, ds: set<Digest>, b: Digest, tenant: Digest, expected: AuthId, candidate: AuthId)
    requires Inv(t, now) && now > 0 && ds != {} && AllWellFormed(ds) && IsAuthId(candidate)
    ensures Inv(WriteAll(t, Rewritten(t, ds, {b}), RebindRow(t, ds, b, tenant, expected, candidate, now)), now)
  {
    WinnerBindingIsSet(t, Loaded(t, ds, {b}), now);
    TransactionKeepsInv(t, now, ds, {b}, RebindRow(t, ds, b, tenant, expected, candidate, now));
  }

  /** Deletes take live groups whole, or only rows that are no longer live. */
  lemma DeleteKeepsInv(t: Table, now: int, op: Op)
    requires Inv(t, now) && Admissible(op)
    requires !op.Bind? && !op.Rebind? && !op.Refresh? && !op.Lookup? && !op.Tick?
    ensures Inv(Apply(t, now, op), now)
  {
    var t' := Apply(t, now, op);
    forall d | d in t' && Live(t'[d], now)
      ensures t'[d].binding in t' && t'[t'[d].binding] == t'[d]
    {
      assert t[t[d].binding] == t[d];
    }
  }

  lemma WinnerBindingIsSet(t: Table, keys: set<Digest>, now: int)
    requires keys <= t.Keys && RowsOk(t)
    ensures Winner(t, keys, now).Some? ==> t[Winner(t, keys, now).value].binding != ""
  {
  }

  lemma RefreshKeepsInv(t: Table, now: int, tenant: Digest, ds: set<Digest>)
    requires Inv(t, now) && now > 0 && ds != {} && AllWellFormed(ds)
    ensures Inv(RefreshTable(t, tenant, ds, now), now)
  {
    WinnerBindingIsSet(t, Loaded(t, ds, {}), now);
    var row := RefreshRow(t, tenant, ds, now);
    if row.Some? {
      TransactionKeepsInv(t, now, ds, {}, row.value);
    }
  }

  lemma LookupKeepsInv(t: Table, now: int, tenant: Digest, ds: set<Digest>)
    requires Inv(t, now) && now > 0 && ds != {} && AllWellFormed(ds)
    ensures Inv(LookupTable(t, tenant, ds, now), now)
  {
    RefreshKeepsInv(t, now, tenant, ds);
  }

  /** Safety over whole runs: every reachable table has sound groups and one-hour expiries. */
  lemma {:induction false} RunKeepsInv(r: Trace, i: nat)
    requires IsRun(r) && i < |r.tables| && Inv(r.tables[0], r.times[0])
    ensures Inv(r.tables[i], r.times[i]) && r.times[i] >= r.times[0]
  {
    if i > 0 {
      RunKeepsInv(r, i - 1);
      assert StepAt(r, i - 1);
      ApplyKeepsInv(r.tables[i - 1], r.times[i - 1], r.ops[i - 1]);
    }
  }

  // ----- one session over a run -----

  /** The live rows of one group. */
  function Group(t: Table, now: int, b: Digest): set<Digest> {
    set d | d in t && Live(t[d], now) && t[d].binding == b
  }

  ghost function AnyOf(session: set<Digest>): (d: Digest)
    requires session != {}
    ensures d in session
  {
    var d :| d in session; d
  }

  /** The digests of a session are live, in one group, and bound to one auth. */
  ghost predicate Session(t: Table, now: int, session: set<Digest>, auth: AuthId) {
    && session != {} && session <= t.Keys
    && forall d :: d in session ==>
         Live(t[d], now) && t[d].auth == auth && t[d].binding == t[AnyOf(session)].binding
  }

  /** A load either leaves a session's group alone or picks its winner from it. */
  ghost predicate WinsOrMisses(t: Table, now: int, session: set<Digest>, ds: set<Digest>, bs: set<Digest>) {
    forall d :: d in session && d in t ==>
      || Rewritten(t, ds, bs) !! Group(t, now, t[d].binding)
      || (var w := Winner(t, Loaded(t, ds, bs), now); w.Some? && w.value in Group(t, now, t[d].binding))
  }

  /** The operation does not rebind the session, merge it into an older one, delete it or outlive it. */
  ghost predicate Undisturbed(t: Table, now: int, op: Op, session: set<Digest>, auth: AuthId)
    requires Admissible(op)
  {
    match op
    case Bind(_, ds, _) => WinsOrMisses(t, now, session, ds, {})
    case Rebind(ds, b, _, expected, _) =>
      && WinsOrMisses(t, now, session, ds, {b})
      && (expected == auth ==>
            forall d :: d in session && d in t ==> Rewritten(t, ds, {b}) !! Group(t, now, t[d].binding))
    case Refresh(_, ds) => WinsOrMisses(t, now, session, ds, {})
    case Lookup(_, ds) => WinsOrMisses(t, now, session, ds, {})
    case DeleteByAuths(_) => session <= Apply(t, now, op).Keys
    case DeleteExceptAuths(_) => session <= Apply(t, now, op).Keys
    case DeleteByTenant(_) => session <= Apply(t, now, op).Keys
    case DeleteByTenantSession(_, _) => session <= Apply(t, now, op).Keys
    case Cleanup(_) => true
    case Tick(elapsed) => forall d :: d in session && d in t ==> Live(t[d], now + elapsed)
  }

  /** A later row of a session: as old as before, and of the same tenant once it has one. */
  predicate SameOrigin(r: Row, r': Row) {
    r'.created == r.created && (r.tenant != "" ==> r'.tenant == r.tenant)
  }

  predicate StillThatSession(r: Row, r': Row) {
    SameOrigin(r, r') && r'.expires >= r.expires
  }

  /** Whatever else happens, an undisturbed session keeps its auth and age, and its expiry never moves back. */
  lemma UndisturbedKeepsSession(t: Table, now: int, op: Op, session: set<Digest>, auth: AuthId)
    requires Inv(t, now) && now > 0 && Admissible(op)
    requires Session(t, now, session, auth) && Undisturbed(t, now, op, session, auth)
    ensures var t' := Apply(t, now, op);
      && Session(t', now + Elapsed(op), session, auth)
      && forall d :: d in session ==> StillThatSession(t[d], t'[d])
  {
    match op
    case Bind(tenant, ds, candidate) =>
      WriteKeepsSession(t, now, session, auth, ds, {}, BindRow(t, tenant, ds, candidate, now));
    case Rebind(ds, b, tenant, expected, candidate) =>
      WriteKeepsSession(t, now, session, auth, ds, {b}, RebindRow(t, ds, b, tenant, expected, candidate, now));
    case Refresh(tenant, ds) => RefreshKeepsSession(t, now, session, auth, tenant, ds);
    case Lookup(tenant, ds) => RefreshKeepsSession(t, now, session, auth, tenant, ds);
    case _ =>
  }

  lemma WriteKeepsSession(
    t: Table, now: int, session: set<Digest>, auth: AuthId, ds: set<Digest>, bs: set<Digest>, row: Row)
    requires Inv(t, now) && Session(t, now, session, auth)
    requires forall d :: d in session && d in t ==>
      || Rewritten(t, ds, bs) !! Group(t, now, t[d].binding)
      || (row.auth == auth && row.binding == t[d].binding && StillThatSession(t[d], row))
    ensures var t' := WriteAll(t, Rewritten(t, ds, bs), row);
      && Session(t', now, session, auth)
      && forall d :: d in session ==> StillThatSession(t[d], t'[d])
  {
    var t' := WriteAll(t, Rewritten(t, ds, bs), row);
    forall d | d in session
      ensures d in t' && t'[d].auth == auth && t'[d].binding == t[d].binding
      ensures StillThatSession(t[d], t'[d])
    {
      assert d in Group(t, now, t[d].binding);
    }
  }

  lemma RefreshKeepsSession(
    t: Table, now: int, session: set<Digest>, auth: AuthId, tenant: Digest, ds: set<Digest>)
    requires Inv(t, now) && now > 0 && ds != {} && Session(t, now, session, auth)
    requires WinsOrMisses(t, now, session, ds, {})
    ensures var t' := RefreshTable(t, tenant, ds, now);
      && Session(t', now, session, auth)
      && forall d :: d in session ==> StillThatSession(t[d], t'[d])
  {
    var row := RefreshRow(t, tenant, ds, now);
    if row.Some? {
      WriteKeepsSession(t, now, session, auth, ds, {}, row.value);
    }
  }

  /** A load of a session's own digests picks its winner from the session's group. */
  lemma OwnLoadWins(t: Table, now: int, session: set<Digest>, auth: AuthId, ds: set<Digest>, bs: set<Digest>)
    requires Inv(t, now) && Session(t, now, session, auth)
    requires ds != {} && ds <= session && bs <= session
    ensures var w := Winner(t, Loaded(t, ds, bs), now);
      w.Some? && w.value in session + Loaded(t, ds, bs) && forall d :: d in session ==> t[w.value] == t[d]
  {
    var keys := Loaded(t, ds, bs);
    var first :| first in ds;
    WinnerExists(t, keys, now, first);
    var w := Winner(t, keys, now).value;
    assert forall d :: d in session ==> t[t[d].binding] == t[d];
    assert t[t[w].binding] == t[w];
  }

  // ----- keeping a session alive by looking it up -----

  lemma OwnLookupRenews(t: Table, now: int, session: set<Digest>, auth: AuthId, tenant: Digest, ds: set<Digest>)
    requires Inv(t, now) && now > 0 && Session(t, now, session, auth) && ds != {} && ds <= session
    ensures var t' := LookupTable(t, tenant, ds, now);
      && Session(t', now, session, auth)
      && forall d :: d in session ==> t'[d].expires > now + RENEWAL_THRESHOLD
  {
    OwnLoadWins(t, now, session, auth, ds, {});
    var w := Winner(t, Loaded(t, ds, {}), now).value;
    assert WinsOrMisses(t, now, session, ds, {});
    RefreshKeepsSession(t, now, session, auth, tenant, ds);
    var t' := LookupTable(t, tenant, ds, now);
    forall d | d in session
      ensures t'[d].expires > now + RENEWAL_THRESHOLD
    {
      if NeedsWrite(t, tenant, ds, WithTenant(t[w], tenant), now) {
        var first :| first in ds;
        assert t[d].binding in GroupsToLoad(t, ds, {}) by {
          assert t[first].binding in Bindings(t, ds);
        }
        assert d in Rewritten(t, ds, {});
      } else {
        assert t[w] == t[d];
      }
    }
  }

  predicate OwnLookup(op: Op, session: set<Digest>) {
    op.Lookup? && op.digests != {} && op.digests <= session
  }

  /** When the session was last looked up before step `i`; the run's start counts as a lookup. */
  function LastLookup(r: Trace, session: set<Digest>, i: nat): int
    requires |r.times| == |r.ops| + 1 && i < |r.times|
  {
    if i == 0 then r.times[0]
    else if OwnLookup(r.ops[i - 1], session) then r.times[i - 1]
    else LastLookup(r, session, i - 1)
  }

  /** The session is looked up again before 30 minutes pass, and is otherwise undisturbed. */
  ghost predicate LookedUpInTime(r: Trace, session: set<Digest>, auth: AuthId)
    requires IsRun(r)
  {
    && (forall i :: 0 <= i < |r.times| ==> r.times[i] <= LastLookup(r, session, i) + RENEWAL_THRESHOLD)
    && (forall i :: 0 <= i < |r.ops| && !r.ops[i].Tick? && !OwnLookup(r.ops[i], session) ==>
          StepAt(r, i) &&
          Undisturbed(r.tables[i], r.times[i], r.ops[i], session, auth))
  }

  /** The session is bound, and stays so for more than 30 minutes after `last`. */
  ghost predicate Held(t: Table, now: int, session: set<Digest>, auth: AuthId, last: int) {
    Session(t, now, session, auth) && forall d :: d in session ==> t[d].expires > last + RENEWAL_THRESHOLD
  }

  lemma HeldStep(
    t: Table, now: int, op: Op, t': Table, now': int, session: set<Digest>, auth: AuthId, last: int)
    requires Inv(t, now) && now > 0 && Held(t, now, session, auth, last) && StepsTo(t, now, op, t', now')
    requires op.Tick? || OwnLookup(op, session) || Undisturbed(t, now, op, session, auth)
    requires op.Tick? ==> now' <= last + RENEWAL_THRESHOLD
    ensures Held(t', now', session, auth, if OwnLookup(op, session) then now else last)
  {
    if OwnLookup(op, session) {
      OwnLookupRenews(t, now, session, auth, op.tenant, op.digests);
    } else {
      UndisturbedKeepsSession(t, now, op, session, auth);
    }
  }

  /** A session looked up with gaps of at most 30 minutes keeps its auth over a run of any length. */
  lemma {:induction false} LookupsKeepSession(r: Trace, session: set<Digest>, auth: AuthId, i: nat)
    requires IsRun(r) && i < |r.tables| && Inv(r.tables[0], r.times[0])
    requires Held(r.tables[0], r.times[0], session, auth, r.times[0])
    requires LookedUpInTime(r, session, auth)
    ensures Held(r.tables[i], r.times[i], session, auth, LastLookup(r, session, i))
  {
    if i > 0 {
      LookupsKeepSession(r, session, auth, i - 1);
      RunKeepsInv(r, i - 1);
      assert StepAt(r, i - 1);
      HeldStep(r.tables[i - 1], r.times[i - 1], r.ops[i - 1], r.tables[i], r.times[i], session, auth,
               LastLookup(r, session, i - 1));
    }
  }

  // ----- rebinds that all start from one stale binding -----

  /** A rebind from a binding whose auth has already been replaced returns the replacement. */
  lemma StaleRebindReturnsCurrent(
    t: Table, now: int, ds: set<Digest>, b: Digest, tenant: Digest, stale: AuthId, candidate: AuthId, auth: AuthId)
    requires Inv(t, now) && Session(t, now, ds, auth) && b in ds && auth != stale && AllWellFormed(ds) && IsAuthId(candidate)
    ensures RebindRow(t, ds, b, tenant, stale, candidate, now).auth == auth
    ensures Undisturbed(t, now, Rebind(ds, b, tenant, stale, candidate), ds, auth)
  {
    OwnLoadWins(t, now, ds, auth, ds, {b});
  }

  /** The session is bound to `auth`, with all of its rows good until `deadline`. */
  ghost predicate BoundUntil(t: Table, now: int, ds: set<Digest>, auth: AuthId, deadline: int) {
    Session(t, now, ds, auth) && forall d :: d in ds ==> t[d].expires >= deadline
  }

  /** A rebind of the one binding, time passing, or something that does not disturb its session. */
  ghost predicate StaleStep(t: Table, now: int, op: Op, ds: set<Digest>, b: Digest, stale: AuthId, auth: AuthId)
    requires Admissible(op)
  {
    || (op.Rebind? && op.digests == ds && op.binding == b && op.expected == stale)
    || op.Tick?
    || Undisturbed(t, now, op, ds, auth)
  }

  lemma StaleRunStep(
    t: Table, now: int, op: Op, t': Table, now': int, ds: set<Digest>, b: Digest, stale: AuthId, auth: AuthId,
    deadline: int)
    requires Inv(t, now) && now > 0 && BoundUntil(t, now, ds, auth, deadline) && b in ds && auth != stale
    requires StepsTo(t, now, op, t', now') && now' < deadline && StaleStep(t, now, op, ds, b, stale, auth)
    ensures BoundUntil(t', now', ds, auth, deadline)
  {
    if op.Rebind? && op.digests == ds && op.binding == b && op.expected == stale {
      StaleRebindReturnsCurrent(t, now, ds, b, op.tenant, stale, op.candidate, auth);
    }
    UndisturbedKeepsSession(t, now, op, ds, auth);
  }

  /** Every operation of the run is a rebind of the one binding or leaves its session undisturbed. */
  ghost predicate RebindsOf(r: Trace, ds: set<Digest>, b: Digest, stale: AuthId, auth: AuthId)
    requires IsRun(r)
  {
    forall i :: 0 <= i < |r.ops| ==>
      StepAt(r, i) &&
      StaleStep(r.tables[i], r.times[i], r.ops[i], ds, b, stale, auth)
  }

  lemma {:induction false} StaleRebindsKeepSession(
    r: Trace, ds: set<Digest>, b: Digest, stale: AuthId, auth: AuthId, deadline: int, i: nat)
    requires IsRun(r) && i < |r.tables| && Inv(r.tables[0], r.times[0]) && b in ds && auth != stale
    requires BoundUntil(r.tables[0], r.times[0], ds, auth, deadline) && RebindsOf(r, ds, b, stale, auth)
    requires forall j :: 0 <= j < |r.times| ==> r.times[j] < deadline
    ensures BoundUntil(r.tables[i], r.times[i], ds, auth, deadline)
  {
    if i > 0 {
      StaleRebindsKeepSession(r, ds, b, stale, auth, deadline, i - 1);
      StaleStepInRun(r, ds, b, stale, auth, deadline, i - 1);
    }
  }

  lemma StaleStepInRun(
    r: Trace, ds: set<Digest>, b: Digest, stale: AuthId, auth: AuthId, deadline: int, k: nat)
    requires IsRun(r) && k < |r.ops| && Inv(r.tables[0], r.times[0]) && b in ds && auth != stale
    requires BoundUntil(r.tables[k], r.times[k], ds, auth, deadline) && RebindsOf(r, ds, b, stale, auth)
    requires r.times[k + 1] < deadline
    ensures BoundUntil(r.tables[k + 1], r.times[k + 1], ds, auth, deadline)
  {
    RunKeepsInv(r, k);
    assert StepAt(r, k);
    StaleRunStep(
      r.tables[k], r.times[k], r.ops[k], r.tables[k + 1], r.times[k + 1], ds, b, stale, auth, deadline);
  }

  /** A rebind away from `stale` leaves the session bound to one other auth, its candidate if it was first. */
  lemma FirstRebindOpensSession(
    t: Table, now: int, ds: set<Digest>, b: Digest, tenant: Digest, stale: AuthId, first: AuthId)
    requires Inv(t, now) && now > 0 && ds != {} && AllWellFormed(ds) && IsAuthId(first) && first != stale
    ensures var row := RebindRow(t, ds, b, tenant, stale, first, now);
      var t' := Apply(t, now, Rebind(ds, b, tenant, stale, first));
      && Inv(t', now) && Session(t', now, ds, row.auth) && row.auth != stale
      && (forall d :: d in ds ==> t'[d].expires == row.expires)
      && (var w := Winner(t, Loaded(t, ds, {b}), now);
          w.None? || t[w.value].auth == stale ==> row.auth == first && row.expires == now + EXPIRY)
  {
    ApplyKeepsInv(t, now, Rebind(ds, b, tenant, stale, first));
    WrittenSession(t, now, ds, Rewritten(t, ds, {b}), RebindRow(t, ds, b, tenant, stale, first, now));
  }

  lemma WrittenSession(t: Table, now: int, ds: set<Digest>, all: set<Digest>, row: Row)
    requires ds != {} && ds <= all && Live(row, now)
    ensures var t' := WriteAll(t, all, row);
      Session(t', now, ds, row.auth) && forall d :: d in ds ==> t'[d] == row
  {
  }

  /**
   * All rebinds from one stale binding agree: after a first rebind away from its auth, every later
   * one returns what the first returned, whatever its own candidate is, until the binding would expire.
   */
  lemma StaleRebindsAgree(
    t: Table, now: int, ds: set<Digest>, b: Digest, tenant: Digest, stale: AuthId, first: AuthId,
    r: Trace, i: nat, later: AuthId)
    requires Inv(t, now) && now > 0 && AllWellFormed(ds) && b in ds && IsAuthId(first) && first != stale
    requires IsRun(r) && i < |r.tables| && IsAuthId(later)
    requires StepsTo(t, now, Rebind(ds, b, tenant, stale, first), r.tables[0], r.times[0])
    requires var row := RebindRow(t, ds, b, tenant, stale, first, now);
      RebindsOf(r, ds, b, stale, row.auth) && forall j :: 0 <= j < |r.times| ==> r.times[j] < row.expires
    ensures var row := RebindRow(t, ds, b, tenant, stale, first, now);
      RebindRow(r.tables[i], ds, b, tenant, stale, later, r.times[i]).auth == row.auth
    ensures var w := Winner(t, Loaded(t, ds, {b}), now);
      w.None? || t[w.value].auth == stale ==> RebindRow(t, ds, b, tenant, stale, first, now).auth == first
  {
    FirstRebindOpensSession(t, now, ds, b, tenant, stale, first);
    var row := RebindRow(t, ds, b, tenant, stale, first, now);
    StaleRebindsKeepSession(r, ds, b, stale, row.auth, row.expires, i);
    RunKeepsInv(r, i);
    StaleRebindReturnsCurrent(r.tables[i], r.times[i], ds, b, tenant, stale, later, row.auth);
  }
}

// Auth health as a state machine over the in-memory registry and the durable table beside it
// (internal/codexonly/auth_health.go). A step may fail in the store; it then returns an error.

module AuthHealth {
  import opened Wrappers
  import GoText

  type AuthId = string
  type Model = string

  const MAX_MODEL_BYTES := 128
  const MAX_EXCLUSIONS := 64

  datatype Kind = Quota | InvalidGrant | Unauthorized | CredentialInvalid | Transient | ModelUnsupported

  /** Times are nanoseconds since Go's zero time; 0 is the zero time, "no deadline". */
  datatype Health = Health(
    kind: Kind, reason: string, retryAt: int, authoritative: bool, fingerprint: string,
    statusCode: int, errorCode: string, updatedAt: int)

  datatype Row = Row(
    kind: Kind, reason: string, retryAt: int, fingerprint: string, statusCode: int, errorCode: string,
    updatedAt: int)

  datatype Exclusion = Exclusion(
    fingerprint: string, reason: string, statusCode: int, errorCode: string, updatedAt: int)

  datatype Auth = Auth(id: AuthId, fingerprint: string)

  datatype Change =
    | Added(id: AuthId)
    | Removed(id: AuthId)
    | Updated(id: AuthId, credentialsChanged: bool)

  /** The configured auths: ID to credential fingerprint. */
  type Auths = map<AuthId, string>

  datatype Sys = Sys(
    states: map<AuthId, Health>, exclusions: map<AuthId, map<Model, Exclusion>>, epochs: map<AuthId, nat>,
    rows: map<AuthId, Row>)

  // ----- predicates on kinds -----

  predicate PersistedKind(kind: Kind) {
    kind.Quota? || kind.InvalidGrant? || kind.Unauthorized?
  }

  predicate CredentialKind(kind: Kind) {
    kind.InvalidGrant? || kind.Unauthorized? || kind.CredentialInvalid?
  }

  /** The states that must survive a restart. */
  predicate Durable(h: Health) {
    || (h.kind.Quota? && h.authoritative && h.retryAt != 0)
    || h.kind.InvalidGrant?
    || h.kind.Unauthorized?
  }

  predicate Expired(h: Health, now: int) {
    h.retryAt != 0 && h.retryAt <= now
  }

  /** preserveExistingHealthState. */
  predicate Preserves(existing: Health, incoming: Health, now: int) {
    && !Expired(existing, now)
    && Weak(incoming)
    && (CredentialKind(existing.kind) || (existing.kind.Quota? && existing.authoritative))
  }

  predicate Weak(h: Health) {
    h.kind.Transient? || h.kind.CredentialInvalid? || (h.kind.Quota? && !h.authoritative)
  }

  // ----- text that is safe to store -----

  function SafeText(s: string): string {
    var trimmed := GoText.TrimSpace(s);
    if |trimmed| > 128 then trimmed[..128] else trimmed
  }

  predicate IsCodeChar(c: char) {
    'a' <= c <= 'z' || 'A' <= c <= 'Z' || '0' <= c <= '9' || c == '_' || c == '-' || c == '.'
  }

  function SafeCode(s: string): (code: string)
    ensures forall i :: 0 <= i < |code| ==> IsCodeChar(code[i])
    ensures |code| <= 64
  {
    var trimmed := GoText.TrimSpace(s);
    if |trimmed| > 64 || exists i :: 0 <= i < |trimmed| && !IsCodeChar(trimmed[i]) then "" else trimmed
  }

  /** Safe codes and texts are kept: only what is too long, or not of the kind, is changed. */
  lemma SafeValuesAreKept(s: string)
    requires GoText.Trimmed(s)
    ensures |s| <= 64 && (forall i :: 0 <= i < |s| ==> IsCodeChar(s[i])) ==> SafeCode(s) == s
    ensures |s| <= 128 ==> SafeText(s) == s
    ensures |s| > 128 ==> SafeText(s) == s[..128]
  {
  }

  /** A model identifier is used as it is, without the spaces around it. */
  lemma {:induction false} ModelIsNormalized(model: string, before: nat, after: nat)
    requires 0 < |model| <= MAX_MODEL_BYTES && forall i :: 0 <= i < |model| ==> IsModelChar(model[i])
    ensures NormalizedModel(seq(before, _ => ' ') + model + seq(after, _ => ' ')) == Some(model)
  {
    SpacesGo(model, before, after);
  }

  lemma {:induction false} SpacesGo(model: string, before: nat, after: nat)
    requires 0 < |model| && model[0] != ' ' && model[|model| - 1] != ' '
    ensures TrimSpaces(seq(before, _ => ' ') + model + seq(after, _ => ' ')) == model
    decreases before, after
  {
    var s := seq(before, _ => ' ') + model + seq(after, _ => ' ');
    if before > 0 {
      assert s[1..] == seq(before - 1, _ => ' ') + model + seq(after, _ => ' ');
      SpacesGo(model, before - 1, after);
    } else if after > 0 {
      assert s[0] == model[0];
      assert s[..|s| - 1] == seq(0, _ => ' ') + model + seq(after - 1, _ => ' ');
      SpacesGo(model, 0, after - 1);
    } else {
      assert s == model;
    }
  }

  /** A code that was made safe once is stored as it is. */
  lemma SafeCodeIsStable(s: string)
    ensures SafeCode(SafeCode(s)) == SafeCode(s)
  {
    var code := SafeCode(s);
    assert GoText.Trimmed(code) by {
      if code != [] {
        assert IsCodeChar(code[0]) && IsCodeChar(code[|code| - 1]);
      }
    }
  }

  /** A text made safe once loses at most trailing space when it is stored. */
  lemma SafeTextIsStableWhenTrimmed(s: string)
    ensures SafeText(SafeText(s)) == SafeText(s) <==> GoText.Trimmed(SafeText(s))
    ensures SafeText(SafeText(SafeText(s))) == SafeText(SafeText(s))
  {
    var text := SafeText(s);
    TrimShortens(GoText.TrimLeft(text));
    TrimLeftShortens(text);
  }

  /** The cut falls right after a space. */
  predicate CutAfterSpace(s: string) {
    var trimmed := GoText.TrimSpace(s);
    |trimmed| > 128 && GoText.IsSpace(trimmed[127])
  }

  lemma SafeTextIsTrimmedIff(s: string)
    ensures GoText.Trimmed(SafeText(s)) <==> !CutAfterSpace(s)
  {
    var trimmed := GoText.TrimSpace(s);
    if |trimmed| > 128 {
      assert trimmed[..128][0] == trimmed[0] && trimmed[..128][127] == trimmed[127];
    }
  }

  /** The row of a sanitized state repeats its reason unless the reason was cut right after a space. */
  lemma RowRepeatsReasonIff(auth: Auth, incoming: Health, now: int)
    ensures var h := Sanitized(auth, incoming, now);
      RowOf(h).reason == h.reason <==> !CutAfterSpace(incoming.reason)
  {
    SafeTextIsStableWhenTrimmed(incoming.reason);
    SafeTextIsTrimmedIff(incoming.reason);
  }

  /** It can leave one: the 128th character of a long reason may be a space. */
  lemma CutCanLeaveSpace(reason: string)
    requires reason == seq(127, _ => 'a') + " b"
    ensures SafeText(reason) == reason[..128] && !GoText.Trimmed(SafeText(reason))
    ensures SafeText(SafeText(reason)) != SafeText(reason)
  {
    assert reason[0] == 'a' && reason[127] == ' ' && reason[128] == 'b';
    assert GoText.Trimmed(reason);
    assert reason[..128][127] == ' ';
    SafeTextIsStableWhenTrimmed(reason);
  }

  lemma {:induction false} TrimShortens(s: string)
    ensures |GoText.TrimRight(s)| <= |s|
  {
    if s != [] && GoText.IsSpace(s[|s| - 1]) {
      TrimShortens(s[..|s| - 1]);
    }
  }

  lemma {:induction false} TrimLeftShortens(s: string)
    ensures |GoText.TrimLeft(s)| <= |s|
  {
    if s != [] && GoText.IsSpace(s[0]) {
      TrimLeftShortens(s[1..]);
    }
  }

  /** normalizeModelIdentifier: the identifier without outer spaces, if it is one. */
  function NormalizedModel(model: string): Option<Model> {
    var trimmed := TrimSpaces(model);
    if trimmed == "" || |trimmed| > MAX_MODEL_BYTES then None
    else if exists i :: 0 <= i < |trimmed| && !IsModelChar(trimmed[i]) then None
    else Some(trimmed)
  }

  function TrimSpaces(s: string): string {
    if s != [] && s[0] == ' ' then TrimSpaces(s[1..])
    else if s != [] && s[|s| - 1] == ' ' then TrimSpaces(s[..|s| - 1])
    else s
  }

  predicate IsModelChar(c: char) {
    IsCodeChar(c) || c == '/' || c == ':' || c == '@'
  }

  // ----- what the store holds for a state, and what a restart makes of it -----

  function RowOf(h: Health): Row {
    Row(h.kind, SafeText(h.reason), h.retryAt, h.fingerprint, h.statusCode, SafeCode(h.errorCode), h.updatedAt)
  }

  function HealthOf(row: Row): Health {
    Health(row.kind, row.reason, row.retryAt, row.kind.Quota?, row.fingerprint, row.statusCode, row.errorCode,
           row.updatedAt)
  }

  /** Which rows a restart brings back. */
  predicate Restorable(id: AuthId, row: Row, auths: Auths, now: int) {
    && id in auths
    && (row.retryAt == 0 || row.retryAt > now)
    && (CredentialKind(row.kind) ==> row.fingerprint == auths[id])
  }

  /** What SaveAuthHealthState guarantees of a row. */
  predicate RowOk(row: Row) {
    && PersistedKind(row.kind) && (row.kind.Quota? ==> row.retryAt != 0)
    && SafeText(row.reason) == row.reason && SafeCode(row.errorCode) == row.errorCode
  }

  predicate RowsOk(rows: map<AuthId, Row>) {
    forall id :: id in rows ==> RowOk(rows[id])
  }

  // ----- the operations -----

  function Sanitized(auth: Auth, h: Health, now: int): Health {
    h.(reason := SafeText(h.reason), errorCode := SafeCode(h.errorCode), updatedAt := now,
       fingerprint := if CredentialKind(h.kind) then auth.fingerprint else h.fingerprint)
  }

  /** MarkUnavailable when the store call, if there is one, answers `ok`. */
  function MarkUnavailable(s: Sys, now: int, auth: Auth, incoming: Health, ok: bool): Sys {
    var h := Sanitized(auth, incoming, now);
    if auth.id in s.states && Preserves(s.states[auth.id], h, now) then s
    else if !ok then s
    else Marked(s, auth.id, h)
  }

  /** The state is replaced, and its row written or deleted with it. */
  function Marked(s: Sys, id: AuthId, h: Health): Sys {
    WithEntry(s, id, h, if Durable(h) then Some(RowOf(h)) else None)
  }

  function WithEntry(s: Sys, id: AuthId, h: Health, row: Option<Row>): Sys {
    s.(states := s.states[id := h], rows := if row.Some? then s.rows[id := row.value] else s.rows - {id})
  }

  function Bumped(epochs: map<AuthId, nat>, id: AuthId): map<AuthId, nat> {
    epochs[id := (if id in epochs then epochs[id] else 0) + 1]
  }

  predicate KeepsQuota(s: Sys, id: AuthId, now: int) {
    id in s.states && s.states[id].kind.Quota? && s.states[id].authoritative && s.states[id].retryAt > now
  }

  /** Forgets an auth's state, and its row if its kind may have one. */
  function Forget(s: Sys, id: AuthId): Sys {
    if id !in s.states then s
    else s.(states := s.states - {id}, rows := if PersistedKind(s.states[id].kind) then s.rows - {id} else s.rows)
  }

  function WithoutExclusion(s: Sys, id: AuthId, model: Option<Model>): Sys {
    if model.None? || id !in s.exclusions then s
    else
      var left := s.exclusions[id] - {model.value};
      s.(exclusions := if left == map[] then s.exclusions - {id} else s.exclusions[id := left])
  }

  /** markHealthyLocked, when its store call succeeds or is not needed. */
  function Healed(s: Sys, now: int, id: AuthId, model: string): Sys {
    WithoutExclusion(if KeepsQuota(s, id, now) then s else Forget(s, id), id, NormalizedModel(model))
  }

  /** Whether markHealthyLocked asks the store to delete a row. */
  predicate HealingDeletes(s: Sys, now: int, id: AuthId) {
    id in s.states && !KeepsQuota(s, id, now) && PersistedKind(s.states[id].kind)
  }

  predicate IsOldest(m: map<Model, Exclusion>, model: Model) {
    && model in m
    && forall other :: other in m && other != model ==>
         m[model].updatedAt < m[other].updatedAt ||
         (m[model].updatedAt == m[other].updatedAt && GoText.Less(model, other))
  }

  /** MarkModelUnsupported files an exclusion, dropping the oldest one when there is no room. */
  ghost predicate Excludes(s: Sys, s': Sys, now: int, auth: Auth, model: Model, statusCode: int, errorCode: string) {
    var healed := Healed(s, now, auth.id, "");
    var held := if auth.id in s.exclusions then s.exclusions[auth.id] else map[];
    var exclusion := Exclusion(auth.fingerprint, "model_not_supported", statusCode, errorCode, now);
    && s' == healed.(exclusions := s'.exclusions)
    && auth.id in s'.exclusions
    && s'.exclusions == s.exclusions[auth.id := s'.exclusions[auth.id]]
    && if model !in held && |held| >= MAX_EXCLUSIONS then
         exists oldest :: IsOldest(held, oldest) && s'.exclusions[auth.id] == (held - {oldest})[model := exclusion]
       else s'.exclusions[auth.id] == held[model := exclusion]
  }

  function ExpiredIds(s: Sys, now: int): set<AuthId> {
    set id | id in s.states && Expired(s.states[id], now)
  }

  function Dropped(s: Sys, ids: set<AuthId>): Sys {
    s.(states := s.states - ids,
       rows := s.rows - (set id | id in ids && id in s.states && PersistedKind(s.states[id].kind)))
  }

  /** PruneExpired: all expired states when the store answers, some of them when it fails on the way. */
  ghost predicate Prunes(s: Sys, s': Sys, now: int, ok: bool) {
    exists ids :: ids <= ExpiredIds(s, now) && (ok ==> ids == ExpiredIds(s, now)) && s' == Dropped(s, ids)
  }

  /** One change of a reconcile, when its store call succeeds or is not needed. */
  function Reconciled(s: Sys, change: Change, auths: Auths): Sys {
    match change
    case Added(_) => s
    case Removed(id) =>
      var forgotten := Forget(s, id);
      forgotten.(exclusions := s.exclusions - {id}, epochs := s.epochs - {id})
    case Updated(id, credentialsChanged) =>
      if id !in auths then s
      else
        var stale := id in s.states && CredentialKind(s.states[id].kind) && s.states[id].fingerprint != auths[id];
        var s1 := if stale then Forget(s, id) else s;
        var s2 := if id in s.exclusions then FreshExclusions(s1, id, auths[id]) else s1;
        if credentialsChanged then s2.(epochs := Bumped(s2.epochs, id)) else s2
  }

  function FreshExclusions(s: Sys, id: AuthId, fingerprint: string): Sys
    requires id in s.exclusions
  {
    var held := s.exclusions[id];
    var left := map model | model in held && held[model].fingerprint == fingerprint :: held[model];
    s.(exclusions := if left == map[] && held != map[] then s.exclusions - {id} else s.exclusions[id := left])
  }

  function ReconciledAll(s: Sys, changes: seq<Change>, auths: Auths): Sys {
    if changes == [] then s
    else Reconciled(ReconciledAll(s, changes[..|changes| - 1], auths), changes[|changes| - 1], auths)
  }

  /** Reconcile: every change and then a prune, or a prefix of the changes when the store fails. */
  ghost predicate Reconciles(s: Sys, s': Sys, now: int, changes: seq<Change>, auths: Auths, ok: bool) {
    || Prunes(ReconciledAll(s, changes, auths), s', now, ok)
    || (!ok && exists k :: 0 <= k < |changes| && s' == ReconciledAll(s, changes[..k], auths))
  }

  /** Memory is lost and a Restore of the surviving rows succeeds. */
  function Restarted(s: Sys, now: int, auths: Auths): Sys {
    var rows := map id | id in s.rows && Restorable(id, s.rows[id], auths, now) :: s.rows[id];
    Sys(map id | id in rows :: HealthOf(rows[id]), map[], map[], rows)
  }

  datatype Op =
    | MarkUnavailableOp(auth: Auth, health: Health)
    | MarkHealthyOp(auth: Auth, model: string)
    | MarkCredentialHealthyOp(auth: Auth)
    | MarkModelUnsupportedOp(auth: Auth, model: string, statusCode: int, errorCode: string)
    | ClearCooldownOp(auth: Auth)
    | PruneOp
    | ReconcileOp(changes: seq<Change>, auths: Auths)
    | RestartOp(auths: Auths)

  predicate HasCooldown(s: Sys, id: AuthId) {
    id in s.states && s.states[id].retryAt != 0 && (s.states[id].kind.Quota? || s.states[id].kind.Transient?)
  }

  /** The step relation: `ok` says that no store call failed. */
  ghost predicate Step(s: Sys, now: int, op: Op, ok: bool, s': Sys) {
    match op
    case MarkUnavailableOp(auth, health) => s' == MarkUnavailable(s, now, auth, health, ok)
    case MarkHealthyOp(auth, model) =>
      if !ok then HealingDeletes(s, now, auth.id) && s' == s
      else var healed := Healed(s, now, auth.id, model); s' == healed.(epochs := Bumped(healed.epochs, auth.id))
    case MarkCredentialHealthyOp(auth) =>
      if auth.id !in s.states || !CredentialKind(s.states[auth.id].kind) then s' == s
      else if !ok then s' == s
      else s' == Forget(s, auth.id).(epochs := Bumped(s.epochs, auth.id))
    case MarkModelUnsupportedOp(auth, model, statusCode, errorCode) =>
      if NormalizedModel(model).None? || !ok then s' == s
      else Excludes(s, s', now, auth, NormalizedModel(model).value, statusCode, errorCode)
    case ClearCooldownOp(auth) =>
      if !HasCooldown(s, auth.id) || !ok then s' == s
      else s' == Forget(s, auth.id).(epochs := Bumped(s.epochs, auth.id))
    case PruneOp => Prunes(s, s', now, ok)
    case ReconcileOp(changes, auths) => Reconciles(s, s', now, changes, auths, ok)
    case RestartOp(auths) => ok && s' == Restarted(s, now, auths)
  }

  // ----- the registry and the table agree -----

  function Get<V>(m: map<AuthId, V>, id: AuthId): Option<V> {
    if id in m then Some(m[id]) else None
  }

  /** Blocked: why an auth may not be used for a model now, if it may not. */
  function Blocked(s: Sys, now: int, id: AuthId, model: string): Option<Health> {
    var state := StateOf(s, id, model);
    if state.Some? && Expired(state.value, now) then None else state
  }

  /** State: an exclusion of the model comes before the auth's own state. */
  function StateOf(s: Sys, id: AuthId, model: string): Option<Health> {
    var m := NormalizedModel(model);
    if m.Some? && id in s.exclusions && m.value in s.exclusions[id] then
      var e := s.exclusions[id][m.value];
      Some(Health(ModelUnsupported, e.reason, 0, false, "", e.statusCode, e.errorCode, e.updatedAt))
    else Get(s.states, id)
  }

  /** A row exists exactly for a durable state, and says what it says. */
  predicate EntryOk(state: Option<Health>, row: Option<Row>) {
    if state.Some? && Durable(state.value) then row == Some(RowOf(state.value)) else row.None?
  }

  ghost predicate Agree(s: Sys) {
    forall id :: EntryOk(Get(s.states, id), Get(s.rows, id))
  }

  /** No auth holds more exclusions than there is room for. */
  ghost predicate Bounded(s: Sys) {
    forall id :: id in s.exclusions ==> |s.exclusions[id]| <= MAX_EXCLUSIONS
  }

  ghost predicate Inv(s: Sys) {
    Agree(s) && RowsOk(s.rows) && Bounded(s)
  }

  /** The agreement in the words of the design. */
  lemma AgreeMeans(s: Sys, id: AuthId)
    requires Agree(s)
    ensures id in s.rows <==> id in s.states && Durable(s.states[id])
    ensures id in s.rows ==> s.rows[id] == RowOf(s.states[id])
  {
    assert EntryOk(Get(s.states, id), Get(s.rows, id));
  }

  /** Two systems whose entries differ only at `id`. */
  ghost predicate DiffersAt(s: Sys, s': Sys, id: AuthId) {
    forall other :: other != id ==>
      Get(s'.states, other) == Get(s.states, other) && Get(s'.rows, other) == Get(s.rows, other)
  }

  lemma EntryKeepsAgree(s: Sys, s': Sys, id: AuthId)
    requires Agree(s) && RowsOk(s.rows) && DiffersAt(s, s', id)
    requires EntryOk(Get(s'.states, id), Get(s'.rows, id))
    requires Get(s'.rows, id).Some? ==> RowOk(Get(s'.rows, id).value)
    ensures Agree(s') && RowsOk(s'.rows)
  {
    forall other
      ensures EntryOk(Get(s'.states, other), Get(s'.rows, other))
    {
      assert EntryOk(Get(s.states, other), Get(s.rows, other));
    }
    forall other | other in s'.rows
      ensures RowOk(s'.rows[other])
    {
      if other == id {
        assert Get(s'.rows, id) == Some(s'.rows[id]);
      } else {
        assert Get(s'.rows, other) == Get(s.rows, other);
        assert RowOk(s.rows[other]);
      }
    }
  }

  lemma SanitizedRowIsOk(auth: Auth, incoming: Health, now: int)
    requires Durable(Sanitized(auth, incoming, now))
    ensures RowOk(RowOf(Sanitized(auth, incoming, now)))
  {
    SafeCodeIsStable(incoming.errorCode);
    SafeTextIsStableWhenTrimmed(incoming.reason);
  }

  lemma MarkKeepsAgree(s: Sys, now: int, auth: Auth, incoming: Health, ok: bool)
    requires Agree(s) && RowsOk(s.rows)
    ensures var s' := MarkUnavailable(s, now, auth, incoming, ok); Agree(s') && RowsOk(s'.rows)
  {
    var h := Sanitized(auth, incoming, now);
    if Durable(h) {
      SanitizedRowIsOk(auth, incoming, now);
    }
    MarkedKeepsAgree(s, auth.id, h);
  }

  lemma MarkedKeepsAgree(s: Sys, id: AuthId, h: Health)
    requires Agree(s) && RowsOk(s.rows) && (Durable(h) ==> RowOk(RowOf(h)))
    ensures Agree(Marked(s, id, h)) && RowsOk(Marked(s, id, h).rows)
  {
    WithEntryKeepsAgree(s, id, h, if Durable(h) then Some(RowOf(h)) else None);
  }

  lemma WithEntryKeepsAgree(s: Sys, id: AuthId, h: Health, row: Option<Row>)
    requires Agree(s) && RowsOk(s.rows) && EntryOk(Some(h), row) && (row.Some? ==> RowOk(row.value))
    ensures Agree(WithEntry(s, id, h, row)) && RowsOk(WithEntry(s, id, h, row).rows)
  {
    var s' := WithEntry(s, id, h, row);
    assert Get(s'.states, id) == Some(h) && Get(s'.rows, id) == row;
    assert DiffersAt(s, s', id);
    EntryKeepsAgree(s, s', id);
  }

  lemma ForgetKeepsAgree(s: Sys, id: AuthId)
    requires Agree(s) && RowsOk(s.rows)
    ensures Agree(Forget(s, id)) && RowsOk(Forget(s, id).rows)
  {
    AgreeMeans(s, id);
    EntryKeepsAgree(s, Forget(s, id), id);
  }

  lemma DroppedKeepsAgree(s: Sys, ids: set<AuthId>)
    requires Agree(s) && RowsOk(s.rows)
    ensures Agree(Dropped(s, ids)) && RowsOk(Dropped(s, ids).rows)
  {
    var s' := Dropped(s, ids);
    forall id
      ensures EntryOk(Get(s'.states, id), Get(s'.rows, id))
    {
      AgreeMeans(s, id);
      assert EntryOk(Get(s.states, id), Get(s.rows, id));
    }
  }

  lemma FreshKeepsInv(s: Sys, id: AuthId, fingerprint: string)
    requires Inv(s) && id in s.exclusions
    ensures Inv(FreshExclusions(s, id, fingerprint))
  {
    var held := s.exclusions[id];
    SubmapIsSmaller(map model | model in held && held[model].fingerprint == fingerprint :: held[model], held);
  }

  lemma ReconciledKeepsInv(s: Sys, change: Change, auths: Auths)
    requires Inv(s)
    ensures Inv(Reconciled(s, change, auths))
  {
    match change
    case Added(_) =>
    case Removed(id) => ForgetKeepsAgree(s, id);
    case Updated(id, _) =>
      if id in auths {
        ForgetKeepsAgree(s, id);
        var stale := id in s.states && CredentialKind(s.states[id].kind) && s.states[id].fingerprint != auths[id];
        var s1 := if stale then Forget(s, id) else s;
        assert Inv(s1);
        if id in s.exclusions {
          FreshKeepsInv(s1, id, auths[id]);
        }
      }
  }

  lemma SubmapIsSmaller<K, V>(small: map<K, V>, large: map<K, V>)
    requires small.Keys <= large.Keys
    ensures |small| <= |large|
  {
    assert large.Keys == small.Keys + (large.Keys - small.Keys);
    assert |small| == |small.Keys| && |large| == |large.Keys|;
  }

  lemma {:induction false} ReconciledAllKeepsInv(s: Sys, changes: seq<Change>, auths: Auths)
    requires Inv(s)
    ensures Inv(ReconciledAll(s, changes, auths))
  {
    if changes != [] {
      ReconciledAllKeepsInv(s, changes[..|changes| - 1], auths);
      ReconciledKeepsInv(ReconciledAll(s, changes[..|changes| - 1], auths), changes[|changes| - 1], auths);
    }
  }

  lemma WithoutExclusionIsBounded(s: Sys, id: AuthId, model: Option<Model>)
    requires Bounded(s)
    ensures Bounded(WithoutExclusion(s, id, model))
  {
    if model.Some? && id in s.exclusions {
      SubmapIsSmaller(s.exclusions[id] - {model.value}, s.exclusions[id]);
    }
  }

  lemma HealedKeepsInv(s: Sys, now: int, id: AuthId, model: string)
    requires Inv(s)
    ensures Inv(Healed(s, now, id, model))
  {
    ForgetKeepsAgree(s, id);
    WithoutExclusionIsBounded(s, id, NormalizedModel(model));
    WithoutExclusionIsBounded(Forget(s, id), id, NormalizedModel(model));
  }

  lemma ExcludesKeepsInv(
    s: Sys, s': Sys, now: int, auth: Auth, model: Model, statusCode: int, errorCode: string)
    requires Inv(s) && Excludes(s, s', now, auth, model, statusCode, errorCode)
    ensures Inv(s')
  {
    HealedKeepsInv(s, now, auth.id, "");
    var held := if auth.id in s.exclusions then s.exclusions[auth.id] else map[];
    var exclusion := Exclusion(auth.fingerprint, "model_not_supported", statusCode, errorCode, now);
    if model !in held && |held| >= MAX_EXCLUSIONS {
      var oldest :| IsOldest(held, oldest) && s'.exclusions[auth.id] == (held - {oldest})[model := exclusion];
    } else {
    }
  }

  /** Every step, also one whose store call fails part way, keeps registry and table in agreement. */
  lemma StepKeepsInv(s: Sys, now: int, op: Op, ok: bool, s': Sys)
    requires Inv(s) && Step(s, now, op, ok, s')
    ensures Inv(s')
  {
    match op
    case MarkUnavailableOp(auth, health) => MarkKeepsAgree(s, now, auth, health, ok);
    case MarkHealthyOp(auth, model) => HealedKeepsInv(s, now, auth.id, model);
    case MarkCredentialHealthyOp(auth) => ForgetKeepsAgree(s, auth.id);
    case MarkModelUnsupportedOp(auth, model, statusCode, errorCode) =>
      if NormalizedModel(model).Some? && ok {
        ExcludesKeepsInv(s, s', now, auth, NormalizedModel(model).value, statusCode, errorCode);
      }
    case ClearCooldownOp(auth) => ForgetKeepsAgree(s, auth.id);
    case PruneOp => PrunesKeepsInv(s, s', now, ok);
    case ReconcileOp(changes, auths) =>
      if Prunes(ReconciledAll(s, changes, auths), s', now, ok) {
        ReconciledAllKeepsInv(s, changes, auths);
        PrunesKeepsInv(ReconciledAll(s, changes, auths), s', now, ok);
      } else {
        var k :| 0 <= k < |changes| && s' == ReconciledAll(s, changes[..k], auths);
        ReconciledAllKeepsInv(s, changes[..k], auths);
      }
    case RestartOp(auths) => RestartedIsInv(s, now, auths);
  }

  lemma PrunesKeepsInv(s: Sys, s': Sys, now: int, ok: bool)
    requires Inv(s) && Prunes(s, s', now, ok)
    ensures Inv(s')
  {
    var ids :| ids <= ExpiredIds(s, now) && s' == Dropped(s, ids);
    DroppedKeepsAgree(s, ids);
  }

  /** A successful Restore establishes the agreement from any table that Save can have written. */
  lemma RestartedIsInv(s: Sys, now: int, auths: Auths)
    requires RowsOk(s.rows)
    ensures Inv(Restarted(s, now, auths))
  {
    var s' := Restarted(s, now, auths);
    forall id
      ensures EntryOk(Get(s'.states, id), Get(s'.rows, id))
    {
      assert id in s'.rows ==> RowOk(s.rows[id]);
    }
  }

  /** What survives of a state when its row is read back. */
  function Survivor(h: Health): Health {
    h.(reason := SafeText(h.reason), errorCode := SafeCode(h.errorCode), authoritative := h.kind.Quota?)
  }

  /**
   * A restart brings back exactly the durable states whose auth is present, whose deadline has not
   * passed and, for credential kinds, whose fingerprint still matches.
   */
  lemma RestartRestoresExactly(s: Sys, now: int, auths: Auths, id: AuthId)
    requires Agree(s)
    ensures id in Restarted(s, now, auths).states <==>
      && id in s.states && Durable(s.states[id])
      && id in auths
      && !Expired(s.states[id], now)
      && (CredentialKind(s.states[id].kind) ==> s.states[id].fingerprint == auths[id])
    ensures id in Restarted(s, now, auths).states ==>
      Restarted(s, now, auths).states[id] == Survivor(s.states[id])
  {
    AgreeMeans(s, id);
  }

  /** A run: consecutive states and the operations, times and outcomes between them. */
  datatype Event = Event(now: int, op: Op, ok: bool)

  ghost predicate IsRun(trace: seq<Sys>, events: seq<Event>) {
    && |trace| == |events| + 1
    && forall i :: 0 <= i < |events| ==> Step(trace[i], events[i].now, events[i].op, events[i].ok, trace[i + 1])
  }

  /** Safety over whole runs that begin with a successful Restore. */
  lemma {:induction false} RunKeepsInv(trace: seq<Sys>, events: seq<Event>, i: nat)
    requires IsRun(trace, events) && i < |trace|
    requires events != [] && events[0].op.RestartOp? && RowsOk(trace[0].rows)
    ensures i > 0 ==> Inv(trace[i])
  {
    if i == 1 {
      RestartedIsInv(trace[0], events[0].now, events[0].op.auths);
    } else if i > 1 {
      RunKeepsInv(trace, events, i - 1);
      StepKeepsInv(trace[i - 1], events[i - 1].now, events[i - 1].op, events[i - 1].ok, trace[i]);
    }
  }

  // ----- an authoritative quota deadline -----

  ghost predicate QuotaUntil(s: Sys, id: AuthId, deadline: int) {
    id in s.states && s.states[id].kind.Quota? && s.states[id].authoritative && s.states[id].retryAt == deadline
  }

  /** The operations that may replace an unexpired authoritative quota. */
  predicate Replaces(op: Op, id: AuthId) {
    match op
    case MarkUnavailableOp(auth, health) => auth.id == id && !Weak(health)
    case ClearCooldownOp(auth) => auth.id == id
    case ReconcileOp(changes, _) => Removed(id) in changes
    case RestartOp(auths) => id !in auths
    case _ => false
  }

  lemma {:induction false} ReconcilesKeepQuota(s: Sys, changes: seq<Change>, auths: Auths, id: AuthId, deadline: int)
    requires QuotaUntil(s, id, deadline) && Removed(id) !in changes
    ensures QuotaUntil(ReconciledAll(s, changes, auths), id, deadline)
  {
    if changes != [] {
      var init, last := changes[..|changes| - 1], changes[|changes| - 1];
      assert last in changes && forall c :: c in init ==> c in changes;
      ReconcilesKeepQuota(s, init, auths, id, deadline);
    }
  }

  lemma PrunesKeepQuota(s: Sys, s': Sys, now: int, ok: bool, id: AuthId, deadline: int)
    requires QuotaUntil(s, id, deadline) && now < deadline && Prunes(s, s', now, ok)
    ensures QuotaUntil(s', id, deadline)
  {
  }

  lemma HealedKeepsQuota(s: Sys, now: int, healed: AuthId, model: string, id: AuthId, deadline: int)
    requires QuotaUntil(s, id, deadline) && now < deadline
    ensures QuotaUntil(Healed(s, now, healed, model), id, deadline)
  {
  }

  lemma ExcludesKeepQuota(s: Sys, now: int, op: Op, ok: bool, s': Sys, id: AuthId, deadline: int)
    requires op.MarkModelUnsupportedOp? && Step(s, now, op, ok, s')
    requires QuotaUntil(s, id, deadline) && now < deadline
    ensures QuotaUntil(s', id, deadline)
  {
    HealedKeepsQuota(s, now, op.auth.id, "", id, deadline);
  }

  /** Before its deadline an authoritative quota survives every other operation. */
  lemma StepKeepsQuota(s: Sys, now: int, op: Op, ok: bool, s': Sys, id: AuthId, deadline: int)
    requires Inv(s) && Step(s, now, op, ok, s')
    requires QuotaUntil(s, id, deadline) && 0 <= now < deadline && !Replaces(op, id)
    ensures QuotaUntil(s', id, deadline)
  {
    match op
    case MarkModelUnsupportedOp(auth, model, statusCode, errorCode) => ExcludesKeepQuota(s, now, op, ok, s', id, deadline);
    case PruneOp => PrunesKeepQuota(s, s', now, ok, id, deadline);
    case ReconcileOp(changes, auths) =>
      if Prunes(ReconciledAll(s, changes, auths), s', now, ok) {
        ReconcilesKeepQuota(s, changes, auths, id, deadline);
        PrunesKeepQuota(ReconciledAll(s, changes, auths), s', now, ok, id, deadline);
      } else {
        var k :| 0 <= k < |changes| && s' == ReconciledAll(s, changes[..k], auths);
        assert forall c :: c in changes[..k] ==> c in changes;
        ReconcilesKeepQuota(s, changes[..k], auths, id, deadline);
      }
    case RestartOp(auths) => AgreeMeans(s, id);
    case MarkHealthyOp(auth, model) => HealedKeepsQuota(s, now, auth.id, model, id, deadline);
    case _ =>
  }

  /** The deadline survives any run of such operations that stays before it, restarts included. */
  lemma {:induction false} RunKeepsQuota(trace: seq<Sys>, events: seq<Event>, i: nat, id: AuthId, deadline: int)
    requires IsRun(trace, events) && i < |trace| && Inv(trace[0]) && QuotaUntil(trace[0], id, deadline)
    requires forall j :: 0 <= j < |events| ==> 0 <= events[j].now < deadline && !Replaces(events[j].op, id)
    ensures Inv(trace[i]) && QuotaUntil(trace[i], id, deadline)
  {
    if i > 0 {
      RunKeepsQuota(trace, events, i - 1, id, deadline);
      var e := events[i - 1];
      StepKeepsInv(trace[i - 1], e.now, e.op, e.ok, trace[i]);
      StepKeepsQuota(trace[i - 1], e.now, e.op, e.ok, trace[i], id, deadline);
    }
  }
}

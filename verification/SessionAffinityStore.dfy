// The session-affinity half of UserStore, in the source's own form: a table field that
// transactions rewrite alias by alias. Each method is tied to SessionAffinity's table functions.

module SessionAffinityStore {
  import opened Wrappers
  import opened SessionAffinity
  import GoText

  datatype AliasRow = AliasRow(digest: Digest, row: Row)

  datatype Binding = Binding(digests: seq<Digest>, binding: Digest, tenant: Digest, auth: AuthId)

  datatype StoreError = InvalidInput | DatabaseError

  function AsSet(ds: seq<Digest>): set<Digest> {
    set d | d in ds
  }

  predicate Distinct(ds: seq<Digest>) {
    forall i, j :: 0 <= i < j < |ds| ==> ds[i] != ds[j]
  }

  /** normalizeSessionAffinityDigests: trimmed, well formed, first occurrence of each. */
  function Normalized(raw: seq<string>): (ds: seq<Digest>)
    ensures Distinct(ds)
    ensures forall d :: d in ds ==> WellFormed(d)
  {
    if raw == [] then []
    else
      var before := Normalized(raw[..|raw| - 1]);
      var d := GoText.TrimSpace(raw[|raw| - 1]);
      if !WellFormed(d) || d in before then before else before + [d]
  }

  lemma DigestIsTrimmed(d: Digest)
    requires WellFormed(d)
    ensures GoText.TrimSpace(d) == d
  {
    assert IsHex(d[0]) && IsHex(d[|d| - 1]);
    assert GoText.Trimmed(d);
  }

  /** Normalizing drops nothing that is a digest already. */
  lemma {:induction false} DigestsStay(raw: seq<string>, ds: seq<Digest>, d: Digest)
    requires forall e :: e in ds ==> WellFormed(e)
    ensures d in Normalized(raw + ds) <==> d in Normalized(raw) || d in ds
  {
    if ds == [] {
      assert raw + ds == raw;
    } else {
      var init, last := ds[..|ds| - 1], ds[|ds| - 1];
      assert ds == init + [last];
      DigestsStay(raw, init, d);
      assert (raw + ds)[..|raw + ds| - 1] == raw + init;
      DigestIsTrimmed(last);
    }
  }

  lemma DigestsNormalize(ds: seq<Digest>)
    requires forall e :: e in ds ==> WellFormed(e)
    ensures forall d :: d in Normalized(ds) <==> d in ds
  {
    assert [] + ds == ds;
    forall d
      ensures d in Normalized(ds) <==> d in ds
    {
      DigestsStay([], ds, d);
    }
  }

  /** Digests that are normalized already come back unchanged, order included. */
  lemma {:induction false} NormalizedIsIdempotent(raw: seq<string>)
    ensures Normalized(Normalized(raw)) == Normalized(raw)
  {
    if raw != [] {
      NormalizedIsIdempotent(raw[..|raw| - 1]);
      var before := Normalized(raw[..|raw| - 1]);
      var ds := Normalized(raw);
      if ds != before {
        assert ds[..|ds| - 1] == before;
        DigestIsTrimmed(ds[|ds| - 1]);
      }
    }
  }

  method Normalize(raw: seq<string>) returns (ds: seq<Digest>)
    ensures ds == Normalized(raw)
  {
    ds := [];
    for i := 0 to |raw|
      invariant ds == Normalized(raw[..i])
    {
      var d := GoText.TrimSpace(raw[i]);
      assert raw[..i + 1][..i] == raw[..i];
      if WellFormed(d) && d !in ds {
        ds := ds + [d];
      }
    }
    assert raw[..|raw|] == raw;
  }

  /** `result` holds exactly the rows of `keys`, each once, in some order. */
  ghost predicate Lists(result: seq<AliasRow>, t: Table, keys: set<Digest>) {
    && keys <= t.Keys
    && (forall i :: 0 <= i < |result| ==> result[i].digest in keys && result[i].row == t[result[i].digest])
    && (forall k :: k in keys ==> exists i :: 0 <= i < |result| && result[i].digest == k)
  }

  /** Ranging over a map or a query result: every row once, in an order nobody promises. */
  method InAnyOrder(t: Table, keys: set<Digest>) returns (result: seq<AliasRow>)
    requires keys <= t.Keys
    ensures Lists(result, t, keys)
  {
    result := [];
    var rest := keys;
    while rest != {}
      invariant rest <= keys
      invariant Lists(result, t, keys - rest)
    {
      var d :| d in rest;
      ghost var before := result;
      result := result + [AliasRow(d, t[d])];
      forall k | k in keys - (rest - {d})
        ensures exists i :: 0 <= i < |result| && result[i].digest == k
      {
        if k == d {
          assert result[|before|].digest == d;
        } else {
          assert k in keys - rest;
          var i :| 0 <= i < |before| && before[i].digest == k;
          assert result[i].digest == k;
        }
      }
      rest := rest - {d};
    }
    assert keys - {} == keys;
  }

  /** chooseSessionAffinityWinner. */
  method ChooseWinner(result: seq<AliasRow>, now: int, ghost t: Table, ghost keys: set<Digest>)
    returns (winner: Option<AliasRow>)
    requires Lists(result, t, keys)
    ensures match Winner(t, keys, now)
      case None => winner.None?
      case Some(w) => winner == Some(AliasRow(w, t[w]))
  {
    winner := None;
    for i := 0 to |result|
      invariant winner.Some? ==> winner.value in result[..i] && Live(winner.value.row, now)
      invariant forall j :: 0 <= j < i && Live(result[j].row, now) ==>
        winner.Some? && (result[j] == winner.value || Older(t, winner.value.digest, result[j].digest))
    {
      var row := result[i];
      if Live(row.row, now) {
        if winner.None?
           || row.row.created < winner.value.row.created
           || (row.row.created == winner.value.row.created && GoText.Less(row.digest, winner.value.digest))
        {
          ghost var before := winner;
          winner := Some(row);
          forall j | 0 <= j < i && Live(result[j].row, now)
            ensures Older(t, row.digest, result[j].digest)
          {
            if result[j] != before.value
               && t[row.digest].created == t[before.value.digest].created == t[result[j].digest].created {
              GoText.LessIsTransitive(row.digest, before.value.digest, result[j].digest);
            }
          }
        } else {
          GoText.LessIsTotal(winner.value.digest, row.digest);
        }
      }
    }
    if winner.Some? {
      assert IsWinner(t, keys, now, winner.value.digest);
      WinnerIsUnique(t, keys, now, winner.value.digest, Winner(t, keys, now).value);
    } else {
      NoWinnerMeansNoneLive(t, keys, now);
    }
  }

  /** The digests a transaction rewrites and returns: the requested ones, then the loaded ones. */
  method RowDigests(result: seq<AliasRow>, requested: seq<Digest>, ghost t: Table, ghost keys: set<Digest>)
    returns (ds: seq<Digest>)
    requires Lists(result, t, keys) && RowsOk(t) && AllWellFormed(AsSet(requested))
    ensures AsSet(ds) == AsSet(requested) + keys
    ensures Distinct(ds)
    ensures requested != [] ==> ds != []
  {
    var all := requested;
    for i := 0 to |result|
      invariant requested <= all
      invariant forall d :: d in all <==> d in requested || exists j :: 0 <= j < i && result[j].digest == d
    {
      all := all + [result[i].digest];
    }
    assert forall d :: d in all ==> d in AsSet(requested) || d in keys;
    ds := Normalize(all);
    DigestsNormalize(all);
    assert AsSet(ds) == AsSet(requested) + keys;
    if requested != [] {
      assert requested[0] in all;
    }
  }

  method NeedsWriteCheck(
    result: seq<AliasRow>, requested: seq<Digest>, winner: Row, tenant: Digest, now: int, ghost t: Table,
    ghost keys: set<Digest>)
    returns (needed: bool)
    requires Lists(result, t, keys)
    requires forall d :: d in requested && d in t ==> d in keys
    ensures needed <==> NeedsWrite(t, tenant, AsSet(requested), winner, now)
  {
    if winner.updated + RENEWAL_THRESHOLD <= now {
      return true;
    }
    var active: Table := map[];
    for i := 0 to |result|
      invariant forall d :: d in active <==> d in keys && Live(t[d], now) && exists j :: 0 <= j < i && result[j].digest == d
      invariant forall d :: d in active ==> active[d] == t[d]
    {
      if Live(result[i].row, now) {
        active := active[result[i].digest := result[i].row];
      }
    }
    for i := 0 to |requested|
      invariant forall j :: 0 <= j < i ==>
        var d := requested[j];
        d in t && Live(t[d], now) && t[d].auth == winner.auth && t[d].binding == winner.binding
        && (tenant == "" || t[d].tenant == tenant)
    {
      var d := requested[i];
      assert d in requested && d in AsSet(requested);
      if d !in active || active[d].auth != winner.auth || active[d].binding != winner.binding
         || (tenant != "" && active[d].tenant != tenant)
      {
        return true;
      }
    }
    return false;
  }

  /** The binding handed back to a caller describes the row that was written and every alias of it. */
  ghost predicate Describes(b: Binding, t: Table, row: Row, all: set<Digest>) {
    && AsSet(b.digests) == all && b.binding == row.binding && b.tenant == row.tenant && b.auth == row.auth
    && b.binding in b.digests
    && forall d :: d in all ==> d in t && t[d] == row
  }

  /** The byDigest map of loadSessionAffinityRows: each row once, even when both queries returned it. */
  method MergeRows(
    first: seq<AliasRow>, second: seq<AliasRow>, ghost t: Table, ghost firstKeys: set<Digest>,
    ghost secondKeys: set<Digest>)
    returns (result: seq<AliasRow>)
    requires Lists(first, t, firstKeys) && Lists(second, t, secondKeys)
    ensures Lists(result, t, firstKeys + secondKeys)
  {
    var byDigest: Table := map[];
    for i := 0 to |first|
      invariant forall d :: d in byDigest <==> exists j :: 0 <= j < i && first[j].digest == d
      invariant forall d :: d in byDigest ==> d in t && byDigest[d] == t[d]
    {
      byDigest := byDigest[first[i].digest := first[i].row];
    }
    assert byDigest.Keys == firstKeys;
    for i := 0 to |second|
      invariant forall d :: d in byDigest <==> d in firstKeys || exists j :: 0 <= j < i && second[j].digest == d
      invariant forall d :: d in byDigest ==> d in t && byDigest[d] == t[d]
    {
      byDigest := byDigest[second[i].digest := second[i].row];
    }
    assert byDigest.Keys == firstKeys + secondKeys;
    result := InAnyOrder(byDigest, byDigest.Keys);
  }

  function RowsByDigest(t: Table, ds: set<Digest>): (keys: set<Digest>)
    ensures keys <= t.Keys
  {
    set d | d in t && d in ds
  }

  function RowsByBinding(t: Table, bs: set<Digest>): (keys: set<Digest>)
    ensures keys <= t.Keys
  {
    set d | d in t && t[d].binding in bs
  }

  lemma NormalizedSet(ds: seq<Digest>)
    requires AllWellFormed(AsSet(ds))
    ensures AsSet(Normalized(ds)) == AsSet(ds)
  {
    assert forall d :: d in ds ==> d in AsSet(ds);
    DigestsNormalize(ds);
  }

  lemma AddedAreBindings(t: Table, digests: seq<Digest>, result: seq<AliasRow>, added: seq<Digest>)
    requires Lists(result, t, RowsByDigest(t, AsSet(digests)))
    requires forall g :: g in added <==> exists j :: 0 <= j < |result| && result[j].row.binding == g
    ensures AsSet(added) == Bindings(t, AsSet(digests))
  {
    var keys := RowsByDigest(t, AsSet(digests));
    forall g | g in Bindings(t, AsSet(digests))
      ensures g in added
    {
      var d :| d in AsSet(digests) && d in t && t[d].binding == g;
      assert d in keys;
      var j :| 0 <= j < |result| && result[j].digest == d;
      assert result[j].row.binding == g;
    }
  }

  lemma GroupsLoaded(
    t: Table, digests: seq<Digest>, bindings: seq<Digest>, result: seq<AliasRow>, added: seq<Digest>)
    requires RowsOk(t)
    requires Lists(result, t, RowsByDigest(t, AsSet(digests)))
    requires forall g :: g in added <==> exists j :: 0 <= j < |result| && result[j].row.binding == g
    ensures AsSet(Normalized(bindings + added)) == GroupsToLoad(t, AsSet(digests), AsSet(Normalized(bindings)))
  {
    AddedAreBindings(t, digests, result, added);
    assert forall g :: g in added ==> g in AsSet(added) && WellFormed(g);
    forall g
      ensures g in Normalized(bindings + added) <==> g in Normalized(bindings) || g in added
    {
      DigestsStay(bindings, added, g);
    }
  }

  lemma CanonicalIsLeast(ds: seq<Digest>)
    requires ds != []
    ensures AsSet(ds) != {} && Canonical(ds) == Least(AsSet(ds))
  {
    assert ds[0] in AsSet(ds);
    LeastIsUnique(AsSet(ds), Canonical(ds), Least(AsSet(ds)));
  }

  /** A binding digest that is no digest pulls in no group, trimmed or not. */
  lemma OneGroup(t: Table, ds: set<Digest>, raw: string)
    ensures GroupsToLoad(t, ds, AsSet(Normalized([raw]))) == GroupsToLoad(t, ds, {GoText.TrimSpace(raw)})
    ensures Loaded(t, ds, AsSet(Normalized([raw]))) == Loaded(t, ds, {GoText.TrimSpace(raw)})
  {
    assert [raw][..0] == [];
    assert Normalized([]) == [];
    var d := GoText.TrimSpace(raw);
    assert Normalized([raw]) == if WellFormed(d) then [d] else [];
  }

  /** A live row with nothing left to default. */
  predicate Storable(row: Row, now: int) {
    Live(row, now) && IsAuthId(row.auth) && row.created != 0 && row.updated != 0 && row.expires == row.updated + EXPIRY
  }

  ghost function FoundRow(t: Table, ds: set<Digest>, bs: set<Digest>, now: int): Option<Row> {
    match Winner(t, Loaded(t, ds, bs), now)
    case None => None
    case Some(w) => Some(t[w])
  }

  ghost predicate IsTransactionBinding(t: Table, ds: set<Digest>, bs: set<Digest>, now: int, binding: Digest)
    requires ds != {}
  {
    match FoundRow(t, ds, bs, now)
    case None => binding == Least(Rewritten(t, ds, bs))
    case Some(row) => binding == row.binding
  }

  lemma BindWrites(t: Table, tenant: Digest, ds: set<Digest>, candidate: AuthId, now: int)
    requires RowsOk(t) && ds != {} && now > 0 && IsAuthId(candidate)
    ensures var row := match FoundRow(t, ds, {}, now)
        case None => FreshRow(Rewritten(t, ds, {}), tenant, candidate, now)
        case Some(row) => row;
      && WithTenant(row, tenant) == BindRow(t, tenant, ds, candidate, now)
      && Storable(WithTenant(row, tenant), now) && IsTransactionBinding(t, ds, {}, now, row.binding)
  {
    WinnerBindingIsSet(t, Loaded(t, ds, {}), now);
  }

  lemma RebindWrites(
    t: Table, ds: set<Digest>, b: Digest, tenant: Digest, expected: AuthId, candidate: AuthId, now: int)
    requires RowsOk(t) && ds != {} && now > 0 && IsAuthId(candidate)
    ensures var row := match FoundRow(t, ds, {b}, now)
        case None => FreshRow(Rewritten(t, ds, {b}), tenant, candidate, now)
        case Some(row) => if row.auth == expected then Renewed(row.(auth := candidate), now) else row;
      && WithTenant(row, tenant) == RebindRow(t, ds, b, tenant, expected, candidate, now)
      && Storable(WithTenant(row, tenant), now) && IsTransactionBinding(t, ds, {b}, now, row.binding)
  {
    WinnerBindingIsSet(t, Loaded(t, ds, {b}), now);
  }

  lemma RefreshWrites(t: Table, tenant: Digest, ds: set<Digest>, now: int)
    requires RowsOk(t) && ds != {} && now > 0
    ensures match FoundRow(t, ds, {}, now)
      case None => RefreshRow(t, tenant, ds, now).None?
      case Some(found) =>
        var row := if found.updated + RENEWAL_THRESHOLD > now then found else Renewed(found, now);
        && RefreshRow(t, tenant, ds, now) == Some(WithTenant(row, tenant))
        && Storable(WithTenant(row, tenant), now) && IsTransactionBinding(t, ds, {}, now, row.binding)
  {
    WinnerBindingIsSet(t, Loaded(t, ds, {}), now);
  }

  /** The binding that a transaction writes is one of the aliases it covers. */
  lemma BindingIsCovered(t: Table, now: int, ds: set<Digest>, bs: set<Digest>, binding: Digest)
    requires Inv(t, now) && ds != {} && AllWellFormed(ds)
    requires IsTransactionBinding(t, ds, bs, now, binding)
    ensures binding in Rewritten(t, ds, bs) && AllWellFormed(Rewritten(t, ds, bs))
  {
    LoadIsClosed(t, now, ds, bs);
  }

  /** The binding speaks for all of `ds`: each is live, on its auth and in its group. */
  ghost predicate BoundTo(b: Binding, t: Table, ds: set<Digest>, now: int) {
    && b.binding in b.digests && (forall d :: d in b.digests ==> WellFormed(d))
    && NamesOneGroup(b, t)
    && forall d :: d in ds ==>
         d in b.digests && d in t && Live(t[d], now) && t[d].auth == b.auth && t[d].binding == b.binding
  }

  /** The rows of the binding's digests are all in its group, and the group is on its auth. */
  ghost predicate NamesOneGroup(b: Binding, t: Table) {
    && b.binding in t && t[b.binding].auth == b.auth
    && forall d :: d in b.digests && d in t ==> t[d].binding == b.binding
  }

  /** Where nothing needs to be written, all loaded rows are in the winner's group already. */
  lemma UnwrittenIsOneGroup(t: Table, ds: set<Digest>, winner: Row, tenant: Digest, now: int)
    requires Inv(t, now) && ds != {} && !NeedsWrite(t, tenant, ds, winner, now)
    ensures winner.binding in t && t[winner.binding].auth == winner.auth
    ensures forall d :: d in ds ==> d in t && Live(t[d], now) && t[d].auth == winner.auth && t[d].binding == winner.binding
    ensures forall d :: d in Rewritten(t, ds, {}) && d in t ==> t[d].binding == winner.binding
  {
    var d :| d in ds;
    assert t[t[d].binding] == t[d];
    assert Bindings(t, ds) <= {winner.binding};
  }

  lemma BoundEarlier(b: Binding, t: Table, ds: set<Digest>, now: int, later: int)
    requires BoundTo(b, t, ds, later) && now <= later
    ensures BoundTo(b, t, ds, now)
  {
  }

  /** What a lookup answers and leaves behind, when its refresh, if it needs one, finds the table `found`. */
  ghost predicate LookupAnswers(
    t: Table, found: Table, tenant: Digest, digests: seq<Digest>, now: int, later: int, commits: bool,
    result: Result<Option<Binding>, StoreError>, t': Table)
  {
    var ds := AsSet(digests);
    if digests == [] then result == Success(None) && t' == t
    else
      && ds != {}
      && match FoundRow(t, ds, {}, now)
         case None => result == Success(None) && t' == t
         case Some(row) =>
           if !NeedsWrite(t, tenant, ds, WithTenant(row, tenant), now) then
             t' == t && result.Success? && result.value.Some? && result.value.value.auth == row.auth
           else
             match RefreshRow(found, tenant, ds, later)
             case None => result == Success(None) && t' == found
             case Some(refreshed) =>
               if !commits then result == Failure(DatabaseError) && t' == found
               else
                 && t' == WriteAll(found, Rewritten(found, ds, {}), refreshed)
                 && result.Success? && result.value.Some? && result.value.value.auth == refreshed.auth
  }

  lemma CleanupIsKeep(t: Table, now: int, batch: set<Digest>)
    requires Inv(t, now) && now > 0 && batch <= t.Keys && forall d :: d in batch ==> !Live(t[d], now)
    ensures var t' := map d | d in t.Keys - batch :: t[d];
      t' == Apply(t, now, Op.Cleanup(batch)) && Inv(t', now) && t.Keys - t'.Keys == batch == t.Keys - (t.Keys - batch)
  {
    ApplyKeepsInv(t, now, Op.Cleanup(batch));
  }

  class AffinityStore {
    var rows: Table

    constructor ()
      ensures rows == map[] && forall now :: Inv(rows, now)
    {
      rows := map[];
    }

    /** readSessionAffinityRows: SQL returns the matching rows in no particular order. */
    method SelectRows(byBinding: bool, wanted: seq<Digest>) returns (result: seq<AliasRow>)
      ensures var ds := AsSet(Normalized(wanted));
        Lists(result, rows, if byBinding then RowsByBinding(rows, ds) else RowsByDigest(rows, ds))
    {
      var ds := Normalize(wanted);
      var keys := if byBinding then RowsByBinding(rows, AsSet(ds)) else RowsByDigest(rows, AsSet(ds));
      result := InAnyOrder(rows, keys);
    }

    /** loadSessionAffinityRows: the rows of some digests together with their whole groups. */
    method LoadRows(digests: seq<Digest>, bindings: seq<Digest>) returns (result: seq<AliasRow>)
      requires AllWellFormed(AsSet(digests)) && RowsOk(rows)
      ensures Lists(result, rows, Loaded(rows, AsSet(digests), AsSet(Normalized(bindings))))
    {
      result := SelectRows(false, digests);
      NormalizedSet(digests);
      ghost var added: seq<Digest> := [];
      var groups := bindings;
      for i := 0 to |result|
        invariant groups == bindings + added
        invariant forall g :: g in added <==> exists j :: 0 <= j < i && result[j].row.binding == g
      {
        groups, added := groups + [result[i].row.binding], added + [result[i].row.binding];
      }
      GroupsLoaded(rows, digests, bindings, result, added);
      var groupRows := SelectRows(true, groups);
      ghost var byDigest := RowsByDigest(rows, AsSet(digests));
      ghost var byBinding := RowsByBinding(rows, AsSet(Normalized(groups)));
      result := MergeRows(result, groupRows, rows, byDigest, byBinding);
      assert byDigest + byBinding == Loaded(rows, AsSet(digests), AsSet(Normalized(bindings)));
    }

    /** writeSessionAffinityAliases: one upsert for each alias. */
    method WriteAliases(digests: seq<Digest>, winner: Row, now: int)
      requires digests != []
      modifies this
      ensures rows == WriteAll(old(rows), AsSet(digests), Defaulted(winner, now, Canonical(digests)))
    {
      var row := Defaulted(winner, now, Canonical(digests));
      for i := 0 to |digests|
        invariant rows.Keys == old(rows).Keys + AsSet(digests[..i])
        invariant forall d :: d in rows ==> rows[d] == if d in digests[..i] then row else old(rows)[d]
      {
        rows := rows[digests[i] := row];
        assert digests[..i + 1] == digests[..i] + [digests[i]];
      }
      assert digests[..|digests|] == digests;
    }

    /** What every transaction starts with: the aliases it covers and the winner among their rows. */
    method LoadForTransaction(digests: seq<Digest>, bindings: seq<string>, now: int)
      returns (all: seq<Digest>, winner: Option<Row>)
      requires digests != [] && AllWellFormed(AsSet(digests)) && RowsOk(rows)
      ensures all != [] && AsSet(all) == Rewritten(rows, AsSet(digests), AsSet(Normalized(bindings)))
      ensures AsSet(all) != {} && Canonical(all) == Least(AsSet(all))
      ensures winner == FoundRow(rows, AsSet(digests), AsSet(Normalized(bindings)), now)
    {
      var loaded := LoadRows(digests, bindings);
      ghost var keys := Loaded(rows, AsSet(digests), AsSet(Normalized(bindings)));
      all := RowDigests(loaded, digests, rows, keys);
      CanonicalIsLeast(all);
      var found := ChooseWinner(loaded, now, rows, keys);
      winner := if found.None? then None else Some(found.value.row);
    }

    /** What every transaction ends with: write the winner to every alias and describe the binding. */
    method Commit(all: seq<Digest>, winner: Row, now: int, ghost ds: set<Digest>, ghost bs: set<Digest>)
      returns (binding: Binding)
      requires now > 0 && Inv(rows, now) && ds != {} && AllWellFormed(ds)
      requires all != [] && AsSet(all) == Rewritten(rows, ds, bs)
      requires Storable(winner, now) && IsTransactionBinding(rows, ds, bs, now, winner.binding)
      modifies this
      ensures Inv(rows, now)
      ensures rows == WriteAll(old(rows), Rewritten(old(rows), ds, bs), winner)
      ensures Describes(binding, rows, winner, Rewritten(old(rows), ds, bs))
    {
      BindingIsCovered(rows, now, ds, bs, winner.binding);
      TransactionKeepsInv(rows, now, ds, bs, winner);
      assert Defaulted(winner, now, Canonical(all)) == winner;
      WriteAliases(all, winner, now);
      binding := Binding(all, winner.binding, winner.tenant, winner.auth);
    }

    /** bindSessionAffinity. A commit that fails rolls everything back. */
    method Bind(tenant: Digest, raw: seq<string>, rawCandidate: string, now: int, commits: bool)
      returns (result: Result<Binding, StoreError>)
      requires now > 0 && Inv(rows, now)
      modifies this
      ensures Inv(rows, now)
      ensures var digests := Normalized(raw);
        var ds := AsSet(digests);
        var candidate := GoText.TrimSpace(rawCandidate);
        if digests == [] || candidate == "" then result == Failure(InvalidInput) && rows == old(rows)
        else if !commits then result == Failure(DatabaseError) && rows == old(rows)
        else
          && Admissible(Op.Bind(tenant, ds, candidate)) && rows == Apply(old(rows), now, Op.Bind(tenant, ds, candidate))
          && result.Success?
          && Describes(result.value, rows, BindRow(old(rows), tenant, ds, candidate, now), Rewritten(old(rows), ds, {}))
    {
      var digests := Normalize(raw);
      var candidate := GoText.TrimSpace(rawCandidate);
      if digests == [] || candidate == "" {
        return Failure(InvalidInput);
      }
      if !commits {
        return Failure(DatabaseError);
      }
      ghost var ds := AsSet(digests);
      assert digests[0] in ds;
      var all, found := LoadForTransaction(digests, [], now);
      assert AsSet(Normalized([])) == {};
      BindWrites(rows, tenant, ds, candidate, now);
      var winner;
      if found.Some? {
        winner := found.value;
      } else {
        winner := Row(Canonical(all), tenant, candidate, now, now, now + EXPIRY);
      }
      if winner.tenant == "" && tenant != "" {
        winner := winner.(tenant := tenant);
      }
      var binding := Commit(all, winner, now, ds, {});
      result := Success(binding);
    }

    /** RebindSessionAffinity. */
    method Rebind(binding: Binding, rawCandidate: string, now: int, commits: bool)
      returns (result: Result<Binding, StoreError>)
      requires now > 0 && Inv(rows, now)
      modifies this
      ensures Inv(rows, now)
      ensures var digests := Normalized(binding.digests);
        var ds := AsSet(digests);
        var bs := AsSet(Normalized([binding.binding]));
        var expected := GoText.TrimSpace(binding.auth);
        var candidate := GoText.TrimSpace(rawCandidate);
        if digests == [] || expected == "" || candidate == "" then
          result == Failure(InvalidInput) && rows == old(rows)
        else if !commits then result == Failure(DatabaseError) && rows == old(rows)
        else
          var b := GoText.TrimSpace(binding.binding);
          var op := Op.Rebind(ds, b, binding.tenant, expected, candidate);
          && Admissible(op) && rows == Apply(old(rows), now, op)
          && result.Success?
          && Describes(result.value, rows, RebindRow(old(rows), ds, b, binding.tenant, expected, candidate, now),
                       Rewritten(old(rows), ds, {b}))
    {
      var digests := Normalize(binding.digests);
      var expected := GoText.TrimSpace(binding.auth);
      var candidate := GoText.TrimSpace(rawCandidate);
      if digests == [] || expected == "" || candidate == "" {
        return Failure(InvalidInput);
      }
      if !commits {
        return Failure(DatabaseError);
      }
      ghost var ds, b := AsSet(digests), GoText.TrimSpace(binding.binding);
      assert digests[0] in ds;
      var all, found := LoadForTransaction(digests, [binding.binding], now);
      OneGroup(rows, ds, binding.binding);
      RebindWrites(rows, ds, b, binding.tenant, expected, candidate, now);
      var winner;
      if found.None? {
        winner := Row(Canonical(all), binding.tenant, candidate, now, now, now + EXPIRY);
      } else if found.value.auth == expected {
        winner := found.value.(auth := candidate, updated := now, expires := now + EXPIRY);
      } else {
        winner := found.value;
      }
      if winner.tenant == "" && binding.tenant != "" {
        winner := winner.(tenant := binding.tenant);
      }
      var rebound := Commit(all, winner, now, ds, {b});
      result := Success(rebound);
    }

    /** refreshSessionAffinity: its own transaction, which may find that the session is gone. */
    method Refresh(tenant: Digest, digests: seq<Digest>, now: int, commits: bool)
      returns (result: Result<Option<Binding>, StoreError>)
      requires now > 0 && Inv(rows, now) && digests != [] && AllWellFormed(AsSet(digests))
      modifies this
      ensures Inv(rows, now)
      ensures var ds := AsSet(digests);
        && Admissible(Op.Refresh(tenant, ds))
        && match RefreshRow(old(rows), tenant, ds, now)
           case None => result == Success(None) && rows == old(rows)
           case Some(row) =>
             if !commits then result == Failure(DatabaseError) && rows == old(rows)
             else
               && rows == Apply(old(rows), now, Op.Refresh(tenant, ds))
               && result.Success? && result.value.Some?
               && Describes(result.value.value, rows, row, Rewritten(old(rows), ds, {}))
      ensures result.Success? && result.value.Some? ==> BoundTo(result.value.value, rows, AsSet(digests), now)
    {
      ghost var ds := AsSet(digests);
      assert digests[0] in ds;
      var all, found := LoadForTransaction(digests, [], now);
      assert AsSet(Normalized([])) == {};
      RefreshWrites(rows, tenant, ds, now);
      if found.None? {
        return Success(None);
      }
      if !commits {
        return Failure(DatabaseError);
      }
      var winner := found.value;
      if winner.tenant == "" && tenant != "" {
        winner := winner.(tenant := tenant);
      }
      if winner.updated + RENEWAL_THRESHOLD <= now {
        winner := winner.(updated := now, expires := now + EXPIRY);
      }
      ghost var before := rows;
      var binding := Commit(all, winner, now, ds, {});
      result := Success(Some(binding));
    }

    /** Any transactions of other requests, one after another, while the time goes from `now` to `later`. */
    method OtherTransactions(now: int, later: int)
      requires 0 < now <= later && Inv(rows, now)
      modifies this
      ensures Inv(rows, later)
    {
      var count: nat :| true;
      var time := now;
      for i := 0 to count
        invariant now <= time <= later && Inv(rows, time)
      {
        var binding: Binding, candidate: AuthId, tenant: Digest, auths: set<AuthId> := *, *, *, *;
        var elapsed: nat, choice: int, limit: int := *, *, *;
        if choice == 0 {
          var _ := Rebind(binding, candidate, time, true);
        } else if choice == 1 {
          var _ := Bind(tenant, binding.digests, candidate, time, true);
        } else if choice == 2 {
          var digests := Normalize(binding.digests);
          if digests != [] {
            var _ := Refresh(tenant, digests, time, true);
          }
        } else if choice == 3 {
          var _, _ := Cleanup(limit, time);
        } else if choice == 4 {
          var _ := DeleteByAuths(auths, time);
        } else if choice == 5 {
          var _ := DeleteExceptAuths(auths, time);
        } else if choice == 6 {
          var _ := DeleteByTenantSession(tenant, AsSet(binding.digests), time);
        } else if choice == 7 {
          var _ := DeleteByTenant(tenant, time);
        } else if time + elapsed <= later {
          ApplyKeepsInv(rows, time, Tick(elapsed));
          time := time + elapsed;
        }
      }
      ApplyKeepsInv(rows, time, Tick(later - time));
    }

    /**
     * lookupSessionAffinity: a read outside any transaction, then a refresh at a later time when
     * a row must be renewed or an alias filled in. `found` is the table that the refresh finds.
     */
    method Lookup(tenant: Digest, raw: seq<string>, now: int, later: int, quiet: bool, commits: bool)
      returns (result: Result<Option<Binding>, StoreError>, ghost found: Table)
      requires 0 < now <= later && Inv(rows, now)
      modifies this
      ensures Inv(rows, later)
      ensures Inv(found, later) && (quiet ==> found == old(rows))
      ensures LookupAnswers(old(rows), found, tenant, Normalized(raw), now, later, commits, result, rows)
      ensures result.Success? && result.value.Some? ==>
        BoundTo(result.value.value, rows, AsSet(Normalized(raw)), now)
    {
      var digests := Normalize(raw);
      ghost var ds := AsSet(digests);
      ApplyKeepsInv(rows, now, Tick(later - now));
      found := rows;
      if digests == [] {
        return Success(None), found;
      }
      assert digests[0] in ds;
      var loaded := LoadRows(digests, []);
      assert AsSet(Normalized([])) == {};
      ghost var keys := Loaded(rows, ds, {});
      var chosen := ChooseWinner(loaded, now, rows, keys);
      assert FoundRow(rows, ds, {}, now) == if chosen.None? then None else Some(chosen.value.row);
      if chosen.None? {
        return Success(None), found;
      }
      var winner := chosen.value.row;
      if winner.tenant == "" && tenant != "" {
        winner := winner.(tenant := tenant);
      }
      var needed := NeedsWriteCheck(loaded, digests, winner, tenant, now, rows, keys);
      if needed {
        if !quiet {
          OtherTransactions(now, later);
        }
        found := rows;
        result := Refresh(tenant, digests, later, commits);
        if result.Success? && result.value.Some? {
          BoundEarlier(result.value.value, rows, ds, now, later);
        }
        return;
      }
      var binding := DescribeUnwritten(loaded, digests, winner, tenant, now, keys);
      result := Success(Some(binding));
    }

    /** The answer of a lookup that found nothing to write. */
    method DescribeUnwritten(
      loaded: seq<AliasRow>, digests: seq<Digest>, winner: Row, tenant: Digest, now: int, ghost keys: set<Digest>)
      returns (binding: Binding)
      requires Inv(rows, now) && AsSet(digests) != {} && AllWellFormed(AsSet(digests))
      requires keys == Loaded(rows, AsSet(digests), {}) && Lists(loaded, rows, keys)
      requires !NeedsWrite(rows, tenant, AsSet(digests), winner, now)
      requires IsTransactionBinding(rows, AsSet(digests), {}, now, winner.binding)
      ensures BoundTo(binding, rows, AsSet(digests), now) && binding.auth == winner.auth
    {
      BindingIsCovered(rows, now, AsSet(digests), {}, winner.binding);
      var all := RowDigests(loaded, digests, rows, keys);
      assert AsSet(all) == Rewritten(rows, AsSet(digests), {});
      UnwrittenIsOneGroup(rows, AsSet(digests), winner, tenant, now);
      binding := Binding(all, winner.binding, winner.tenant, winner.auth);
      assert forall d :: d in all ==> d in AsSet(all);
    }

    /** DeleteSessionAffinityByAuthIDs; DeleteSessionAffinityByAccountID is the case of one auth. */
    method DeleteByAuths(auths: set<AuthId>, now: int) returns (deleted: nat)
      requires now > 0 && Inv(rows, now)
      modifies this
      ensures rows == Apply(old(rows), now, Op.DeleteByAuths(auths)) && Inv(rows, now)
      ensures deleted == |old(rows)| - |rows|
    {
      ApplyKeepsInv(rows, now, Op.DeleteByAuths(auths));
      deleted := Keep(set d | d in rows && rows[d].auth !in auths);
    }

    method DeleteExceptAuths(auths: set<AuthId>, now: int) returns (deleted: nat)
      requires now > 0 && Inv(rows, now)
      modifies this
      ensures rows == Apply(old(rows), now, Op.DeleteExceptAuths(auths)) && Inv(rows, now)
      ensures deleted == |old(rows)| - |rows|
    {
      ApplyKeepsInv(rows, now, Op.DeleteExceptAuths(auths));
      deleted := Keep(set d | d in rows && rows[d].auth in auths);
    }

    /** DeleteSessionAffinityByTenantScope, which reports how many groups it cleared. */
    method DeleteByTenant(tenant: Digest, now: int) returns (result: Result<nat, StoreError>)
      requires now > 0 && Inv(rows, now)
      modifies this
      ensures Inv(rows, now)
      ensures if tenant == "" then result == Failure(InvalidInput) && rows == old(rows)
        else
          && rows == Apply(old(rows), now, Op.DeleteByTenant(tenant))
          && result == Success(|set d | d in old(rows) && old(rows)[d].tenant == tenant :: old(rows)[d].binding|)
    {
      if tenant == "" {
        return Failure(InvalidInput);
      }
      ApplyKeepsInv(rows, now, Op.DeleteByTenant(tenant));
      var groups := set d | d in rows && rows[d].tenant == tenant :: rows[d].binding;
      var _ := Keep(set d | d in rows && rows[d].tenant != tenant);
      result := Success(|groups|);
    }

    /** DeleteSessionAffinityByTenantSession: the tenant's groups that hold one of the session's digests. */
    method DeleteByTenantSession(tenant: Digest, ds: set<Digest>, now: int) returns (result: Result<nat, StoreError>)
      requires now > 0 && Inv(rows, now)
      modifies this
      ensures Inv(rows, now)
      ensures if tenant == "" then result == Failure(InvalidInput) && rows == old(rows)
        else
          && rows == Apply(old(rows), now, Op.DeleteByTenantSession(tenant, ds))
          && result == Success(
               |set d | d in old(rows) && old(rows)[d].tenant == tenant && d in ds :: old(rows)[d].binding|)
    {
      if tenant == "" {
        return Failure(InvalidInput);
      }
      ApplyKeepsInv(rows, now, Op.DeleteByTenantSession(tenant, ds));
      var groups := set d | d in rows && rows[d].tenant == tenant && d in ds :: rows[d].binding;
      var _ := Keep(set d | d in rows && !(rows[d].tenant == tenant && rows[d].binding in groups));
      result := Success(|groups|);
    }

    /** CleanupExpiredSessionAffinity: at most `limit` expired rows, those that expired first. */
    method Cleanup(limit: int, now: int) returns (deleted: nat, ghost batch: set<Digest>)
      requires now > 0 && Inv(rows, now)
      modifies this
      ensures rows == Apply(old(rows), now, Op.Cleanup(batch)) && Inv(rows, now)
      ensures batch == old(rows).Keys - rows.Keys && deleted == |batch|
      ensures deleted <= if limit <= 0 then CLEANUP_BATCH_SIZE else limit
      ensures forall d, e :: d in batch && e in rows && !Live(rows[e], now) ==> old(rows)[d].expires <= rows[e].expires
      ensures deleted < (if limit <= 0 then CLEANUP_BATCH_SIZE else limit) ==> forall e :: e in rows ==> Live(rows[e], now)
    {
      var size := if limit <= 0 then CLEANUP_BATCH_SIZE else limit;
      var chosen := FirstExpired(size, now);
      batch := chosen;
      deleted := Keep(rows.Keys - chosen);
      CleanupIsKeep(old(rows), now, chosen);
    }

    /** SELECT ... WHERE expires_at <= now ORDER BY expires_at ASC LIMIT size. */
    method FirstExpired(size: nat, now: int) returns (chosen: set<Digest>)
      ensures chosen <= rows.Keys && |chosen| <= size && forall d :: d in chosen ==> !Live(rows[d], now)
      ensures forall d, e :: d in chosen && e in rows && e !in chosen && !Live(rows[e], now) ==>
        rows[d].expires <= rows[e].expires
      ensures |chosen| < size ==> forall e :: e in rows && e !in chosen ==> Live(rows[e], now)
    {
      var expired := set d | d in rows && !Live(rows[d], now);
      chosen := {};
      while |chosen| < size && chosen != expired
        invariant chosen <= expired && |chosen| <= size
        invariant forall d, e :: d in chosen && e in expired - chosen ==> rows[d].expires <= rows[e].expires
        decreases expired - chosen
      {
        var first := Earliest(expired - chosen);
        chosen := chosen + {first};
      }
    }

    method Earliest(keys: set<Digest>) returns (first: Digest)
      requires keys != {} && keys <= rows.Keys
      ensures first in keys && forall d :: d in keys ==> rows[first].expires <= rows[d].expires
    {
      first :| first in keys;
      var rest := keys - {first};
      while rest != {}
        invariant rest <= keys && first in keys
        invariant forall d :: d in keys - rest ==> rows[first].expires <= rows[d].expires
      {
        var d :| d in rest;
        if rows[d].expires < rows[first].expires {
          first := d;
        }
        rest := rest - {d};
      }
    }

    /** What a DELETE statement leaves behind, and the number of rows it affected. */
    method Keep(keys: set<Digest>) returns (deleted: nat)
      requires keys <= rows.Keys
      modifies this
      ensures rows == map d | d in keys :: old(rows)[d]
      ensures deleted == |old(rows).Keys - keys| == |old(rows)| - |rows|
    {
      deleted := |rows.Keys - keys|;
      assert |rows.Keys| == |rows.Keys - keys| + |keys|;
      rows := map d | d in keys :: rows[d];
      assert rows.Keys == keys;
      assert |rows| == |rows.Keys| && |old(rows)| == |old(rows).Keys|;
    }
  }
}

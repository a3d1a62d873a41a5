// Usage over time: rows are grouped into points per bucket and identity, and missing points are filled
// in with zeros (internal/codexonly/usage.go).

module UsageTimeseries {
  import GoText

  // ----- counters -----

  datatype Requests = Requests(count: int, failed: int)

  datatype Tokens = Tokens(input: int, output: int, reasoning: int, total: int)

  datatype CacheUse = CacheUse(input: int, read: int, creation: int)

  datatype Counters = Counters(requests: Requests, tokens: Tokens, cache: CacheUse)

  datatype Counter =
    | RequestCount | FailedRequestCount | InputTokens | OutputTokens | ReasoningTokens
    | CachedInputTokens | CacheReadTokens | CacheCreationTokens | TotalTokens

  function Get(c: Counters, f: Counter): int {
    match f
    case RequestCount => c.requests.count
    case FailedRequestCount => c.requests.failed
    case InputTokens => c.tokens.input
    case OutputTokens => c.tokens.output
    case ReasoningTokens => c.tokens.reasoning
    case CachedInputTokens => c.cache.input
    case CacheReadTokens => c.cache.read
    case CacheCreationTokens => c.cache.creation
    case TotalTokens => c.tokens.total
  }

  const ZERO := Counters(Requests(0, 0), Tokens(0, 0, 0, 0), CacheUse(0, 0, 0))

  function Add(c: Counters, d: Counters): (sum: Counters)
    ensures forall f :: Get(sum, f) == Get(c, f) + Get(d, f)
  {
    Counters(
      Requests(c.requests.count + d.requests.count, c.requests.failed + d.requests.failed),
      Tokens(c.tokens.input + d.tokens.input, c.tokens.output + d.tokens.output,
             c.tokens.reasoning + d.tokens.reasoning, c.tokens.total + d.tokens.total),
      CacheUse(c.cache.input + d.cache.input, c.cache.read + d.cache.read, c.cache.creation + d.cache.creation))
  }

  // ----- rows and points -----

  datatype Identity = Identity(
    userID: string, name: string, apiKeyID: string, model: string, effort: string, tier: string)

  datatype Group = ByUser | ByApiKey | ByModel | ByEffort | ByTier

  /** Times are nanoseconds since Go's zero time. */
  datatype Key = Key(bucket: nat, identity: Identity)

  datatype Row = Row(bucket: nat, identity: Identity, counters: Counters)

  datatype Point = Point(key: Key, counters: Counters)

  /** Empty user and key IDs select everybody's rows. */
  datatype Query = Query(start: nat, end: nat, step: nat, groups: set<Group>, userID: string, apiKeyID: string)

  predicate Selected(r: Row, q: Query) {
    && q.start <= r.bucket < q.end
    && (|q.userID| > 0 ==> r.identity.userID == q.userID)
    && (|q.apiKeyID| > 0 ==> r.identity.apiKeyID == q.apiKeyID)
  }

  /** usageTimeseriesBucketStart; days of the UTC calendar start at multiples of 24 hours. */
  function BucketStart(t: nat, step: nat): (b: nat)
    requires step > 0
    ensures b <= t < b + step && b % step == 0
  {
    MultipleBelow(t, step);
    t - t % step
  }

  lemma MultipleBelow(t: nat, step: nat)
    requires step > 0
    ensures t % step <= t && (t - t % step) % step == 0
  {
    assert t == step * (t / step) + t % step;
    MultipleIsMultiple(t / step, step);
  }

  lemma MultipleIsMultiple(k: int, step: nat)
    requires step > 0
    ensures (step * k) % step == 0
  {
    var x := step * k;
    var d := k - x / step;
    assert step * d == step * k - step * (x / step) == x % step;
    MultipleGrows(step, d);
  }

  lemma MultipleGrows(step: nat, d: int)
    requires step > 0
    ensures d >= 1 ==> step * d >= step
    ensures d <= -1 ==> step * d <= step * -1
  {
    if d >= 1 {
      assert step * d >= step * 1;
    } else if d <= -1 {
      assert step * d <= step * -1;
    }
  }

  function KeyOf(r: Row, q: Query): Key
    requires q.step > 0
  {
    var i := r.identity;
    Key(BucketStart(r.bucket, q.step), Identity(
      if ByUser in q.groups then i.userID else "", if ByUser in q.groups then i.name else "",
      if ByApiKey in q.groups then i.apiKeyID else "", if ByModel in q.groups then i.model else "",
      if ByEffort in q.groups then i.effort else "", if ByTier in q.groups then i.tier else ""))
  }

  /** What a group-by distinguishes: one value, or a user with its name. */
  function ValueOf(i: Identity, g: Group): (string, string) {
    match g
    case ByUser => (i.userID, i.name)
    case ByApiKey => ("", i.apiKeyID)
    case ByModel => ("", i.model)
    case ByEffort => ("", i.effort)
    case ByTier => ("", i.tier)
  }

  /** A row's point names the values that were asked for and no others. */
  lemma PointNamesGroups(r: Row, q: Query, g: Group)
    requires q.step > 0
    ensures ValueOf(KeyOf(r, q).identity, g) == if g in q.groups then ValueOf(r.identity, g) else ("", "")
  {
  }

  lemma SameStepIff(t: nat, u: nat, step: nat)
    requires step > 0
    ensures BucketStart(t, step) == BucketStart(u, step) <==> t / step == u / step
  {
    assert t == step * (t / step) + t % step && u == step * (u / step) + u % step;
    MultipleGrows(step, t / step - u / step);
    assert step * (t / step - u / step) == step * (t / step) - step * (u / step);
  }

  /** Two rows count for the same point exactly when they fall in one step and agree on all that was asked for. */
  lemma SharePointIff(r: Row, o: Row, q: Query)
    requires q.step > 0
    ensures KeyOf(r, q) == KeyOf(o, q) <==>
      && r.bucket / q.step == o.bucket / q.step
      && forall g :: g in q.groups ==> ValueOf(r.identity, g) == ValueOf(o.identity, g)
  {
    SameStepIff(r.bucket, o.bucket, q.step);
    var k, l := KeyOf(r, q), KeyOf(o, q);
    if r.bucket / q.step == o.bucket / q.step &&
       forall g :: g in q.groups ==> ValueOf(r.identity, g) == ValueOf(o.identity, g) {
      SameValuesSameIdentity(r, o, q);
    } else if k == l {
      forall g | g in q.groups
        ensures ValueOf(r.identity, g) == ValueOf(o.identity, g)
      {
        PointNamesGroups(r, q, g);
        PointNamesGroups(o, q, g);
      }
    }
  }

  lemma SameValuesSameIdentity(r: Row, o: Row, q: Query)
    requires q.step > 0 && forall g :: g in q.groups ==> ValueOf(r.identity, g) == ValueOf(o.identity, g)
    ensures KeyOf(r, q).identity == KeyOf(o, q).identity
  {
    assert ByUser in q.groups ==> ValueOf(r.identity, ByUser) == ValueOf(o.identity, ByUser);
    assert ByApiKey in q.groups ==> ValueOf(r.identity, ByApiKey) == ValueOf(o.identity, ByApiKey);
    assert ByModel in q.groups ==> ValueOf(r.identity, ByModel) == ValueOf(o.identity, ByModel);
    assert ByEffort in q.groups ==> ValueOf(r.identity, ByEffort) == ValueOf(o.identity, ByEffort);
    assert ByTier in q.groups ==> ValueOf(r.identity, ByTier) == ValueOf(o.identity, ByTier);
  }

  // ----- sums -----

  /** The total of one counter over the selected rows. */
  function TableSum(table: seq<Row>, q: Query, f: Counter): int {
    if |table| == 0 then 0
    else
      var r := table[|table| - 1];
      TableSum(table[..|table| - 1], q, f) + if Selected(r, q) then Get(r.counters, f) else 0
  }

  /** The total over the selected rows that belong to one point. */
  function KeySum(table: seq<Row>, q: Query, k: Key, f: Counter): int
    requires q.step > 0
  {
    if |table| == 0 then 0
    else
      var r := table[|table| - 1];
      KeySum(table[..|table| - 1], q, k, f) + if Selected(r, q) && KeyOf(r, q) == k then Get(r.counters, f) else 0
  }

  function PointSum(points: seq<Point>, f: Counter): int {
    if |points| == 0 then 0 else PointSum(points[..|points| - 1], f) + Get(points[|points| - 1].counters, f)
  }

  function KeySums(keys: seq<Key>, table: seq<Row>, q: Query, f: Counter): int
    requires q.step > 0
  {
    if |keys| == 0 then 0 else KeySums(keys[..|keys| - 1], table, q, f) + KeySum(table, q, keys[|keys| - 1], f)
  }

  ghost predicate Distinct(keys: seq<Key>) {
    forall i, j :: 0 <= i < j < |keys| ==> keys[i] != keys[j]
  }

  /** One more selected row adds its counters to the one key that it belongs to. */
  lemma {:induction false} OneMoreRow(keys: seq<Key>, table: seq<Row>, q: Query, f: Counter)
    requires q.step > 0 && Distinct(keys) && |table| > 0
    ensures
      var r := table[|table| - 1];
      KeySums(keys, table, q, f) == KeySums(keys, table[..|table| - 1], q, f) +
        if Selected(r, q) && KeyOf(r, q) in keys then Get(r.counters, f) else 0
    decreases |keys|
  {
    if |keys| > 0 {
      var n := |keys| - 1;
      assert keys == keys[..n] + [keys[n]];
      OneMoreRow(keys[..n], table, q, f);
    }
  }

  /** Grouping loses nothing and counts nothing twice. */
  lemma {:induction false} KeySumsAreTableSum(keys: seq<Key>, table: seq<Row>, q: Query, f: Counter)
    requires q.step > 0 && Distinct(keys)
    requires forall r :: r in table && Selected(r, q) ==> KeyOf(r, q) in keys
    ensures KeySums(keys, table, q, f) == TableSum(table, q, f)
    decreases |table|
  {
    if |table| == 0 {
      NoRowsNoSums(keys, table, q, f);
    } else {
      var n := |table| - 1;
      assert table[n] in table && forall r :: r in table[..n] ==> r in table;
      KeySumsAreTableSum(keys, table[..n], q, f);
      OneMoreRow(keys, table, q, f);
    }
  }

  /** Two windows that meet add up to the window of both. */
  lemma {:induction false} WindowsAddUp(table: seq<Row>, q: Query, middle: nat, f: Counter)
    requires q.start <= middle <= q.end
    ensures TableSum(table, q, f) == TableSum(table, q.(end := middle), f) + TableSum(table, q.(start := middle), f)
  {
    if |table| > 0 {
      WindowsAddUp(table[..|table| - 1], q, middle, f);
    }
  }

  /** Asking for one user gives the points that user has in the series of all users. */
  lemma {:induction false} UserFilterSelects(table: seq<Row>, q: Query, userID: string, k: Key, f: Counter)
    requires q.step > 0 && ByUser in q.groups && |q.userID| == 0 && |userID| > 0
    ensures KeySum(table, q.(userID := userID), k, f) ==
      if k.identity.userID == userID then KeySum(table, q, k, f) else 0
  {
    if |table| > 0 {
      UserFilterSelects(table[..|table| - 1], q, userID, k, f);
    }
  }

  /** And asking for one API key the points of that key. */
  lemma {:induction false} ApiKeyFilterSelects(table: seq<Row>, q: Query, apiKeyID: string, k: Key, f: Counter)
    requires q.step > 0 && ByApiKey in q.groups && |q.apiKeyID| == 0 && |apiKeyID| > 0
    ensures KeySum(table, q.(apiKeyID := apiKeyID), k, f) ==
      if k.identity.apiKeyID == apiKeyID then KeySum(table, q, k, f) else 0
  {
    if |table| > 0 {
      ApiKeyFilterSelects(table[..|table| - 1], q, apiKeyID, k, f);
    }
  }

  lemma {:induction false} NoRowsNoSums(keys: seq<Key>, table: seq<Row>, q: Query, f: Counter)
    requires q.step > 0 && |table| == 0
    ensures KeySums(keys, table, q, f) == 0
    decreases |keys|
  {
    if |keys| > 0 {
      NoRowsNoSums(keys[..|keys| - 1], table, q, f);
    }
  }

  // ----- order -----

  /** usageTimeseriesPointSortKey. */
  function SortKey(i: Identity): string {
    i.name + "\0" + i.userID + "\0" + i.apiKeyID + "\0" + i.model + "\0" + i.effort + "\0" + i.tier
  }

  predicate Before(p: Point, r: Point) {
    || p.key.bucket < r.key.bucket
    || (p.key.bucket == r.key.bucket && GoText.Less(SortKey(p.key.identity), SortKey(r.key.identity)))
  }

  ghost predicate Sorted(points: seq<Point>) {
    forall i, j :: 0 <= i < j < |points| ==> !Before(points[j], points[i])
  }

  lemma {:induction false} LessByFront(a: string, b: string, x: string, y: string)
    requires GoText.Less(a, b) && '\0' !in a && '\0' !in b
    ensures GoText.Less(a + ['\0'] + x, b + ['\0'] + y)
  {
    var s, t := a + ['\0'] + x, b + ['\0'] + y;
    assert t[0] == b[0] && b[0] in b;
    if |a| > 0 && a[0] == b[0] {
      assert s[1..] == a[1..] + ['\0'] + x && t[1..] == b[1..] + ['\0'] + y;
      LessByFront(a[1..], b[1..], x, y);
    }
  }

  /** Within a bucket the names of a series ascend. */
  lemma NamesAscend(points: seq<Point>, i: nat, j: nat)
    requires Sorted(points) && i < j < |points| && points[i].key.bucket == points[j].key.bucket
    requires '\0' !in points[i].key.identity.name && '\0' !in points[j].key.identity.name
    ensures !GoText.Less(points[j].key.identity.name, points[i].key.identity.name)
  {
    var p, r := points[i].key.identity, points[j].key.identity;
    assert !Before(points[j], points[i]);
    NameComesFirst(r);
    NameComesFirst(p);
    if GoText.Less(r.name, p.name) {
      LessByFront(r.name, p.name, AfterName(r), AfterName(p));
    }
  }

  function AfterName(i: Identity): string {
    i.userID + "\0" + i.apiKeyID + "\0" + i.model + "\0" + i.effort + "\0" + i.tier
  }

  lemma NameComesFirst(i: Identity)
    ensures SortKey(i) == i.name + ['\0'] + AfterName(i)
  {
  }

  lemma BeforeIsTransitive(p: Point, r: Point, t: Point)
    requires Before(p, r) && Before(r, t)
    ensures Before(p, t) && !Before(t, p)
  {
    var a, b, c := SortKey(p.key.identity), SortKey(r.key.identity), SortKey(t.key.identity);
    if GoText.Less(a, b) && GoText.Less(b, c) {
      GoText.LessIsTransitive(a, b, c);
      GoText.LessIsAsymmetric(a, c);
    }
  }

  lemma BeforeIsAsymmetric(p: Point, r: Point)
    requires Before(p, r)
    ensures !Before(r, p)
  {
    if p.key.bucket == r.key.bucket {
      GoText.LessIsAsymmetric(SortKey(p.key.identity), SortKey(r.key.identity));
    }
  }

  ghost predicate OnePerKey(points: seq<Point>) {
    forall i, j :: 0 <= i < j < |points| ==> points[i].key != points[j].key
  }

  function Keys(points: seq<Point>): (keys: seq<Key>)
    ensures |keys| == |points| && forall i :: 0 <= i < |keys| ==> keys[i] == points[i].key
  {
    seq(|points|, i requires 0 <= i < |points| => points[i].key)
  }

  // ----- grouping -----

  function ValueAt(m: map<Key, Counters>, k: Key): Counters {
    if k in m then m[k] else ZERO
  }

  /** Some selected row belongs to key `k`. */
  ghost predicate HasRow(table: seq<Row>, q: Query, k: Key)
    requires q.step > 0
  {
    exists r :: r in table && Selected(r, q) && KeyOf(r, q) == k
  }

  /** The map has one entry per key of a selected row, with the totals of that key's rows. */
  ghost predicate Groups(m: map<Key, Counters>, table: seq<Row>, q: Query)
    requires q.step > 0
  {
    && (forall k :: k in m <==> HasRow(table, q, k))
    && forall k, f :: Get(ValueAt(m, k), f) == KeySum(table, q, k, f)
  }

  function GroupedWith(m: map<Key, Counters>, r: Row, q: Query): map<Key, Counters>
    requires q.step > 0
  {
    if Selected(r, q) then m[KeyOf(r, q) := Add(ValueAt(m, KeyOf(r, q)), r.counters)] else m
  }

  lemma HasOneMoreRow(table: seq<Row>, longer: seq<Row>, q: Query, k: Key)
    requires q.step > 0 && |longer| > 0 && table == longer[..|longer| - 1]
    ensures
      var r := longer[|longer| - 1];
      HasRow(longer, q, k) <==> HasRow(table, q, k) || (Selected(r, q) && KeyOf(r, q) == k)
  {
    assert longer == table + [longer[|longer| - 1]];
    assert forall r :: r in longer <==> r in table || r == longer[|longer| - 1];
  }

  lemma GroupsGrow(m: map<Key, Counters>, table: seq<Row>, longer: seq<Row>, q: Query)
    requires q.step > 0 && |longer| > 0 && table == longer[..|longer| - 1] && Groups(m, table, q)
    ensures Groups(GroupedWith(m, longer[|longer| - 1], q), longer, q)
  {
    var r := longer[|longer| - 1];
    var more := GroupedWith(m, r, q);
    forall k
      ensures k in more <==> HasRow(longer, q, k)
    {
      HasOneMoreRow(table, longer, q, k);
    }
    forall k, f
      ensures Get(ValueAt(more, k), f) == KeySum(longer, q, k, f)
    {
      assert Get(ValueAt(m, k), f) == KeySum(table, q, k, f);
    }
  }

  lemma NothingGrouped(table: seq<Row>, q: Query)
    requires q.step > 0 && |table| == 0
    ensures Groups(map[], table, q)
  {
    assert forall f :: Get(ZERO, f) == 0;
  }

  method GroupRows(table: seq<Row>, q: Query) returns (pointsByKey: map<Key, Counters>)
    requires q.step > 0
    ensures (forall r :: r in table && Selected(r, q) ==> r.bucket >= q.step) ==> Groups(pointsByKey, table, q)
  {
    pointsByKey := map[];
    NothingGrouped(table[..0], q);
    for i := 0 to |table|
      invariant (forall r :: r in table[..i] && Selected(r, q) ==> r.bucket >= q.step) ==> Groups(pointsByKey, table[..i], q)
    {
      GroupedSoFar(pointsByKey, table, i, q);
      var r := table[i];
      if !Selected(r, q) {
        continue;
      }
      var key := KeyOf(r, q);
      // A point that starts at the zero time looks like one that is not there yet.
      var counters := if key in pointsByKey && key.bucket != 0 then pointsByKey[key] else ZERO;
      pointsByKey := pointsByKey[key := Add(counters, r.counters)];
    }
    assert table[..|table|] == table;
  }

  lemma GroupedSoFar(m: map<Key, Counters>, table: seq<Row>, i: nat, q: Query)
    requires q.step > 0 && i < |table|
    requires (forall r :: r in table[..i] && Selected(r, q) ==> r.bucket >= q.step) ==> Groups(m, table[..i], q)
    ensures (forall r :: r in table[..i + 1] && Selected(r, q) ==> r.bucket >= q.step) ==>
      && Groups(GroupedWith(m, table[i], q), table[..i + 1], q)
      && (Selected(table[i], q) ==> KeyOf(table[i], q).bucket != 0)
  {
    assert forall t :: t in table[..i] ==> t in table[..i + 1];
    assert table[i] in table[..i + 1];
    if forall r :: r in table[..i + 1] && Selected(r, q) ==> r.bucket >= q.step {
      assert table[..i + 1][..i] == table[..i];
      GroupsGrow(m, table[..i], table[..i + 1], q);
    }
  }

  // ----- sorting -----

  /** The same points in order; the keys are distinct. */
  method SortPoints(points: seq<Point>) returns (sorted: seq<Point>)
    requires OnePerKey(points)
    ensures Sorted(sorted) && OnePerKey(sorted) && |sorted| == |points|
    ensures forall p :: p in sorted <==> p in points
  {
    sorted := [];
    for i := 0 to |points|
      invariant Sorted(sorted) && OnePerKey(sorted) && |sorted| == i
      invariant forall p :: p in sorted <==> p in points[..i]
    {
      forall j | 0 <= j < |sorted|
        ensures sorted[j].key != points[i].key
      {
        assert sorted[j] in points[..i];
      }
      assert points[..i + 1] == points[..i] + [points[i]];
      sorted := Insert(sorted, points[i]);
    }
    assert points[..|points|] == points;
  }

  method Insert(points: seq<Point>, p: Point) returns (more: seq<Point>)
    requires Sorted(points) && OnePerKey(points) && forall j :: 0 <= j < |points| ==> points[j].key != p.key
    ensures Sorted(more) && OnePerKey(more) && |more| == |points| + 1
    ensures forall r :: r in more <==> r in points || r == p
  {
    var k := 0;
    while k < |points| && !Before(p, points[k])
      invariant k <= |points| && forall j :: 0 <= j < k ==> !Before(p, points[j])
    {
      k := k + 1;
    }
    more := points[..k] + [p] + points[k..];
    InsertedIsSorted(points, p, k);
    InsertedIsThere(points, p, k);
  }

  lemma InsertedIsThere(points: seq<Point>, p: Point, k: nat)
    requires OnePerKey(points) && k <= |points| && forall j :: 0 <= j < |points| ==> points[j].key != p.key
    ensures OnePerKey(points[..k] + [p] + points[k..])
    ensures forall r :: r in points[..k] + [p] + points[k..] <==> r in points || r == p
  {
    assert points == points[..k] + points[k..];
    assert forall r :: r in points <==> r in points[..k] || r in points[k..];
  }

  lemma InsertedIsSorted(points: seq<Point>, p: Point, k: nat)
    requires Sorted(points) && k <= |points| && forall j :: 0 <= j < k ==> !Before(p, points[j])
    requires k < |points| ==> Before(p, points[k])
    ensures Sorted(points[..k] + [p] + points[k..])
  {
    forall j | k <= j < |points|
      ensures !Before(points[j], p)
    {
      BeforeIsAsymmetric(p, points[k]);
      if Before(points[j], p) {
        BeforeIsTransitive(points[j], p, points[k]);
      }
    }
  }

  // ----- the series -----

  lemma KeyIsThere(points: seq<Point>, p: Point)
    requires p in points
    ensures p.key in Keys(points)
  {
    var j :| 0 <= j < |points| && points[j] == p;
    assert Keys(points)[j] == p.key;
  }

  /** What a series has to do with its rows. */
  ghost predicate IsSeries(points: seq<Point>, table: seq<Row>, q: Query)
    requires q.step > 0
  {
    && Sorted(points) && OnePerKey(points)
    && (forall r :: r in table && Selected(r, q) ==> KeyOf(r, q) in Keys(points))
    && forall i :: 0 <= i < |points| ==> PointOk(points[i], table, q)
  }

  /** The point belongs to some selected row and has the totals of its key's rows. */
  ghost predicate PointOk(p: Point, table: seq<Row>, q: Query)
    requires q.step > 0
  {
    HasRow(table, q, p.key) && forall f :: Get(p.counters, f) == KeySum(table, q, p.key, f)
  }

  /** The series' totals are the totals of the selected rows, for every group-by and step. */
  lemma SeriesConserves(points: seq<Point>, table: seq<Row>, q: Query, f: Counter)
    requires q.step > 0 && IsSeries(points, table, q)
    ensures PointSum(points, f) == TableSum(table, q, f)
  {
    PointSumIsKeySums(points, table, q, f);
    KeySumsAreTableSum(Keys(points), table, q, f);
  }

  lemma {:induction false} PointSumIsKeySums(points: seq<Point>, table: seq<Row>, q: Query, f: Counter)
    requires q.step > 0 && forall i :: 0 <= i < |points| ==> PointOk(points[i], table, q)
    ensures PointSum(points, f) == KeySums(Keys(points), table, q, f)
    decreases |points|
  {
    if |points| > 0 {
      var n := |points| - 1;
      assert PointOk(points[n], table, q);
      PointSumIsKeySums(points[..n], table, q, f);
      assert Keys(points)[..n] == Keys(points[..n]);
    }
  }

  /** queryUsageTimeseries after the rows were read. */
  method QueryTimeseries(table: seq<Row>, q: Query) returns (points: seq<Point>)
    requires q.step > 0
    ensures (forall r :: r in table && Selected(r, q) ==> r.bucket >= q.step) ==> IsSeries(points, table, q)
  {
    var pointsByKey := GroupRows(table, q);
    points := [];
    var left := pointsByKey.Keys;
    while left != {}
      invariant left <= pointsByKey.Keys && OnePerKey(points)
      invariant forall i :: 0 <= i < |points| ==>
        points[i].key in pointsByKey.Keys - left && points[i].counters == pointsByKey[points[i].key]
      invariant forall k :: k in pointsByKey.Keys - left ==> k in Keys(points)
      decreases |left|
    {
      var k :| k in left;
      left := left - {k};
      ghost var before := points;
      points := points + [Point(k, pointsByKey[k])];
      assert Keys(points) == Keys(before) + [k];
    }
    ghost var unsorted := points;
    points := SortPoints(points);
    if forall r :: r in table && Selected(r, q) ==> r.bucket >= q.step {
      SortedIsSeries(unsorted, points, pointsByKey, table, q);
    }
  }

  lemma SortedIsSeries(
    unsorted: seq<Point>, points: seq<Point>, m: map<Key, Counters>, table: seq<Row>, q: Query)
    requires q.step > 0 && Groups(m, table, q) && Sorted(points) && OnePerKey(points)
    requires forall p :: p in points <==> p in unsorted
    requires forall i :: 0 <= i < |unsorted| ==> unsorted[i].key in m && unsorted[i].counters == m[unsorted[i].key]
    requires forall k :: k in m ==> k in Keys(unsorted)
    ensures IsSeries(points, table, q)
  {
    forall r | r in table && Selected(r, q)
      ensures KeyOf(r, q) in Keys(points)
    {
      assert HasRow(table, q, KeyOf(r, q));
      var i :| 0 <= i < |unsorted| && Keys(unsorted)[i] == KeyOf(r, q);
      assert unsorted[i] in unsorted;
      KeyIsThere(points, unsorted[i]);
    }
    forall i | 0 <= i < |points|
      ensures PointOk(points[i], table, q)
    {
      assert points[i] in unsorted;
      assert HasRow(table, q, points[i].key);
      assert forall f :: Get(ValueAt(m, points[i].key), f) == KeySum(table, q, points[i].key, f);
    }
  }

  // ----- filling in zeros -----

  /** The buckets of a series: every step from the bucket of the start on, up to the end. */
  predicate OnGrid(b: nat, start: nat, end: nat, step: nat)
    requires step > 0
  {
    BucketStart(start, step) <= b < end && b % step == 0
  }

  lemma NextOnGrid(b: nat, c: nat, step: nat)
    requires step > 0 && b % step == 0
    ensures (b + step) % step == 0
    ensures c % step == 0 && b <= c < b + step ==> c == b
  {
    var m, n := b / step, c / step;
    assert b == step * m && c == step * n + c % step;
    assert b + step == step * (m + 1);
    MultipleIsMultiple(m + 1, step);
    assert step * (n - m) == step * n - step * m;
    MultipleGrows(step, n - m);
  }

  lemma BucketIsMonotone(s: nat, t: nat, step: nat)
    requires step > 0 && s <= t
    ensures BucketStart(s, step) <= BucketStart(t, step)
  {
    var b, c := BucketStart(s, step), BucketStart(t, step);
    if c < b {
      NextOnGrid(c, b, step);
    }
  }

  predicate InBucket(t: nat, b: nat, step: nat) {
    b <= t < b + step
  }

  /** The grid of a window consists of the buckets that any time of the window falls in. */
  lemma GridIsWindow(b: nat, start: nat, end: nat, step: nat)
    requires step > 0 && start < end
    ensures OnGrid(b, start, end, step) <==> b % step == 0 && exists t :: start <= t < end && InBucket(t, b, step)
  {
    var first := BucketStart(start, step);
    if OnGrid(b, start, end, step) {
      var t := if b < start then start else b;
      if b < start {
        NextOnGrid(first, b, step);
      }
      assert InBucket(t, b, step);
    }
    if t :| start <= t < end && b % step == 0 && InBucket(t, b, step) {
      BucketIsMonotone(start, t, step);
      NextOnGrid(BucketStart(t, step), b, step);
      NextOnGrid(b, BucketStart(t, step), step);
    }
  }

  /** A queried series is on the grid. */
  lemma SeriesIsOnGrid(points: seq<Point>, table: seq<Row>, q: Query, i: nat)
    requires q.step > 0 && IsSeries(points, table, q) && i < |points|
    ensures OnGrid(points[i].key.bucket, q.start, q.end, q.step)
  {
    assert PointOk(points[i], table, q);
    var r :| r in table && Selected(r, q) && KeyOf(r, q) == points[i].key;
    BucketIsMonotone(q.start, r.bucket, q.step);
  }

  /** The last point with key `k`. */
  function LastPoint(points: seq<Point>, k: Key): Counters {
    if |points| == 0 then ZERO
    else if points[|points| - 1].key == k then points[|points| - 1].counters
    else LastPoint(points[..|points| - 1], k)
  }

  ghost predicate HasIdentity(points: seq<Point>, i: Identity) {
    exists p :: p in points && p.key.identity == i
  }

  /** One point per identity and grid bucket: the given one, or zeros. */
  ghost predicate IsFilled(filled: seq<Point>, points: seq<Point>, start: nat, end: nat, step: nat)
    requires step > 0
  {
    && OnePerKey(filled)
    && (forall k :: k in Keys(filled) <==> OnGrid(k.bucket, start, end, step) && HasIdentity(points, k.identity))
    && forall p :: p in filled ==> p.counters == LastPoint(points, p.key)
  }

  method IndexPoints(points: seq<Point>) returns (pointByKey: map<Key, Counters>, identities: set<Identity>)
    ensures forall k :: ValueAt(pointByKey, k) == LastPoint(points, k)
    ensures forall i :: i in identities <==> HasIdentity(points, i)
  {
    pointByKey, identities := map[], {};
    for n := 0 to |points|
      invariant forall k :: ValueAt(pointByKey, k) == LastPoint(points[..n], k)
      invariant forall i :: i in identities <==> HasIdentity(points[..n], i)
    {
      assert points[..n + 1][..n] == points[..n];
      OneMoreIdentity(points, n);
      pointByKey := pointByKey[points[n].key := points[n].counters];
      identities := identities + {points[n].key.identity};
    }
    assert points[..|points|] == points;
  }

  lemma OneMoreIdentity(points: seq<Point>, n: nat)
    requires n < |points|
    ensures forall i ::
      HasIdentity(points[..n + 1], i) <==> HasIdentity(points[..n], i) || i == points[n].key.identity
  {
    var longer := points[..n + 1];
    assert longer == points[..n] + [points[n]] && longer[n] == points[n];
    forall i
      ensures HasIdentity(longer, i) <==> HasIdentity(points[..n], i) || i == points[n].key.identity
    {
      if HasIdentity(points[..n], i) {
        var p :| p in points[..n] && p.key.identity == i;
        assert p in longer;
      }
      if i == points[n].key.identity {
        assert points[n] in longer;
      }
    }
  }

  /** The points so far are those of `identities`, and of identity `i` in the buckets before `bucket`. */
  ghost predicate FilledSoFar(
    filled: seq<Point>, done: set<Identity>, i: Identity, bucket: nat, m: map<Key, Counters>,
    start: nat, end: nat, step: nat)
    requires step > 0
  {
    && OnePerKey(filled)
    && (forall k :: k in Keys(filled) <==>
          OnGrid(k.bucket, start, end, step) &&
          (k.identity in done || (k.identity == i && k.bucket < bucket)))
    && forall p :: p in filled ==> p.counters == ValueAt(m, p.key)
  }

  method FillIdentity(
    before: seq<Point>, ghost done: set<Identity>, i: Identity, m: map<Key, Counters>,
    start: nat, end: nat, step: nat) returns (filled: seq<Point>)
    requires step > 0 && i !in done && FilledSoFar(before, done, i, 0, m, start, end, step)
    ensures FilledSoFar(filled, done + {i}, i, 0, m, start, end, step)
  {
    filled := before;
    var bucket := BucketStart(start, step);
    while bucket < end
      invariant bucket % step == 0 && bucket >= BucketStart(start, step)
      invariant FilledSoFar(filled, done, i, bucket, m, start, end, step)
      decreases end - bucket
    {
      var p := Point(Key(bucket, i), ValueAt(m, Key(bucket, i)));
      OneMoreBucket(filled, p, done, i, bucket, m, start, end, step);
      filled := filled + [p];
      bucket := bucket + step;
    }
  }

  lemma OneMoreBucket(
    filled: seq<Point>, p: Point, done: set<Identity>, i: Identity, bucket: nat, m: map<Key, Counters>,
    start: nat, end: nat, step: nat)
    requires step > 0 && i !in done && FilledSoFar(filled, done, i, bucket, m, start, end, step)
    requires OnGrid(bucket, start, end, step) && p == Point(Key(bucket, i), ValueAt(m, Key(bucket, i)))
    ensures FilledSoFar(filled + [p], done, i, bucket + step, m, start, end, step)
    ensures (bucket + step) % step == 0
  {
    var more := filled + [p];
    assert Keys(more) == Keys(filled) + [p.key];
    NextOnGrid(bucket, bucket, step);
    forall k
      ensures k in Keys(more) <==>
        OnGrid(k.bucket, start, end, step) && (k.identity in done || (k.identity == i && k.bucket < bucket + step))
    {
      NextOnGrid(bucket, k.bucket, step);
      assert k in Keys(more) <==> k in Keys(filled) || k == p.key;
    }
    forall j | 0 <= j < |filled|
      ensures filled[j].key != p.key
    {
      assert Keys(filled)[j] == filled[j].key;
    }
  }

  /** fillUsageTimeseriesZeros. */
  method FillZeros(points: seq<Point>, start: nat, end: nat, step: nat) returns (filled: seq<Point>)
    ensures |points| == 0 || step == 0 ==> filled == points
    ensures |points| > 0 && step > 0 ==> Sorted(filled) && IsFilled(filled, points, start, end, step)
  {
    if |points| == 0 || step == 0 {
      return points;
    }
    var pointByKey, identities := IndexPoints(points);
    filled := [];
    ghost var done: set<Identity> := {};
    var left := identities;
    var i: Identity := points[0].key.identity;
    while left != {}
      invariant done !! left && done + left == identities
      invariant FilledSoFar(filled, done, i, 0, pointByKey, start, end, step)
      decreases |left|
    {
      i :| i in left;
      left := left - {i};
      filled := FillIdentity(filled, done, i, pointByKey, start, end, step);
      done := done + {i};
    }
    ghost var unsorted := filled;
    filled := SortPoints(filled);
    SameKeys(unsorted, filled);
  }

  lemma SameKeys(points: seq<Point>, sorted: seq<Point>)
    requires forall p :: p in sorted <==> p in points
    ensures forall k :: k in Keys(sorted) <==> k in Keys(points)
  {
    forall k
      ensures k in Keys(sorted) <==> k in Keys(points)
    {
      if k in Keys(sorted) {
        var j :| 0 <= j < |sorted| && Keys(sorted)[j] == k;
        assert sorted[j] in sorted;
        KeyIsThere(points, sorted[j]);
      }
      if k in Keys(points) {
        var j :| 0 <= j < |points| && Keys(points)[j] == k;
        assert points[j] in points;
        KeyIsThere(sorted, points[j]);
      }
    }
  }

  lemma {:induction false} OnlyPoint(points: seq<Point>, p: Point)
    requires OnePerKey(points) && p in points
    ensures LastPoint(points, p.key) == p.counters
  {
    var n := |points| - 1;
    if points[n] != p {
      var j :| 0 <= j < |points| && points[j] == p;
      assert points[..n][j] == p;
      OnlyPoint(points[..n], p);
    }
  }

  lemma {:induction false} NoPoint(points: seq<Point>, k: Key)
    requires k !in Keys(points)
    ensures LastPoint(points, k) == ZERO
  {
    if |points| > 0 {
      var n := |points| - 1;
      assert Keys(points)[n] == points[n].key && Keys(points) == Keys(points[..n]) + [points[n].key];
      NoPoint(points[..n], k);
    }
  }

  /** Filling keeps every point and adds only zeros. */
  lemma FillKeepsPoints(points: seq<Point>, filled: seq<Point>, start: nat, end: nat, step: nat, p: Point)
    requires step > 0 && IsFilled(filled, points, start, end, step) && OnePerKey(points)
    requires forall r :: r in points ==> OnGrid(r.key.bucket, start, end, step)
    ensures p in points ==> p in filled
    ensures p in filled ==> p in points || p.counters == ZERO
  {
    if p in points {
      assert HasIdentity(points, p.key.identity) && p.key in Keys(filled);
      var j :| 0 <= j < |filled| && Keys(filled)[j] == p.key;
      assert filled[j] in filled;
      OnlyPoint(points, p);
    } else if p in filled {
      if p.key in Keys(points) {
        var j :| 0 <= j < |points| && Keys(points)[j] == p.key;
        assert points[j] in points;
        OnlyPoint(points, points[j]);
      } else {
        NoPoint(points, p.key);
      }
    }
  }

  lemma {:induction false} SumWithout(points: seq<Point>, i: nat, f: Counter)
    requires i < |points|
    ensures PointSum(points, f) == PointSum(points[..i] + points[i + 1..], f) + Get(points[i].counters, f)
    decreases |points|
  {
    var n := |points| - 1;
    var rest := points[..i] + points[i + 1..];
    if i == n {
      assert rest == points[..n];
    } else {
      SumWithout(points[..n], i, f);
      assert rest[..n - 1] == points[..n][..i] + points[..n][i + 1..] && rest[n - 1] == points[n];
    }
  }

  lemma {:induction false} ZerosAddNothing(points: seq<Point>, f: Counter)
    requires forall p :: p in points ==> p.counters == ZERO
    ensures PointSum(points, f) == 0
  {
    if |points| > 0 {
      assert points[|points| - 1] in points;
      ZerosAddNothing(points[..|points| - 1], f);
    }
  }

  /** Points with distinct keys that are `points` and zeros add up to what `points` does. */
  lemma {:induction false} SameSum(points: seq<Point>, filled: seq<Point>, f: Counter)
    requires OnePerKey(points) && OnePerKey(filled) && forall p :: p in points ==> p in filled
    requires forall p :: p in filled ==> p in points || p.counters == ZERO
    ensures PointSum(filled, f) == PointSum(points, f)
    decreases |points|
  {
    if |points| == 0 {
      ZerosAddNothing(filled, f);
    } else {
      var n := |points| - 1;
      var p := points[n];
      assert p in points && points == points[..n] + [p];
      var i :| 0 <= i < |filled| && filled[i] == p;
      var rest := filled[..i] + filled[i + 1..];
      RestWithout(filled, i);
      assert forall r :: r in points[..n] ==> r in points && r.key != p.key;
      SameSum(points[..n], rest, f);
      SumWithout(filled, i, f);
    }
  }

  lemma RestWithout(points: seq<Point>, i: nat)
    requires OnePerKey(points) && i < |points|
    ensures OnePerKey(points[..i] + points[i + 1..])
    ensures forall p :: p in points[..i] + points[i + 1..] <==> p in points && p.key != points[i].key
  {
    var rest := points[..i] + points[i + 1..];
    forall p
      ensures p in rest <==> p in points && p.key != points[i].key
    {
      if p in points && p.key != points[i].key {
        var j :| 0 <= j < |points| && points[j] == p;
        assert rest[if j < i then j else j - 1] == p;
      }
      if p in rest {
        var j :| 0 <= j < |rest| && rest[j] == p;
        assert points[if j < i then j else j + 1] == p;
      }
    }
  }

  /** The whole series, filled or not, adds up to the selected rows. */
  lemma FilledSeriesConserves(points: seq<Point>, filled: seq<Point>, table: seq<Row>, q: Query, f: Counter)
    requires q.step > 0 && IsSeries(points, table, q) && IsFilled(filled, points, q.start, q.end, q.step)
    ensures PointSum(filled, f) == TableSum(table, q, f)
  {
    forall p | p in points
      ensures OnGrid(p.key.bucket, q.start, q.end, q.step)
    {
      var i :| 0 <= i < |points| && points[i] == p;
      SeriesIsOnGrid(points, table, q, i);
    }
    forall p
      ensures (p in points ==> p in filled) && (p in filled ==> p in points || p.counters == ZERO)
    {
      FillKeepsPoints(points, filled, q.start, q.end, q.step, p);
    }
    SameSum(points, filled, f);
    SeriesConserves(points, table, q, f);
  }

  /** The series of the rows, or that series with zeros at every other bucket of the grid. */
  ghost predicate IsAnswer(series: seq<Point>, table: seq<Row>, q: Query, fill: bool)
    requires q.step > 0
  {
    exists points :: IsSeries(points, table, q) &&
      if fill then IsFilled(series, points, q.start, q.end, q.step) else series == points
  }

  lemma AnswerConserves(series: seq<Point>, points: seq<Point>, table: seq<Row>, q: Query, fill: bool)
    requires q.step > 0 && IsSeries(points, table, q)
    requires if fill then IsFilled(series, points, q.start, q.end, q.step) else series == points
    ensures IsAnswer(series, table, q, fill)
    ensures forall f :: PointSum(series, f) == TableSum(table, q, f)
  {
    forall f
      ensures PointSum(series, f) == TableSum(table, q, f)
    {
      if fill {
        FilledSeriesConserves(points, series, table, q, f);
      } else {
        SeriesConserves(points, table, q, f);
      }
    }
  }

  /** A series as a client asks for it. */
  method UsageSeries(table: seq<Row>, q: Query, fill: bool) returns (series: seq<Point>)
    requires q.step > 0
    ensures (forall r :: r in table && Selected(r, q) ==> r.bucket >= q.step) ==>
      && Sorted(series) && OnePerKey(series) && IsAnswer(series, table, q, fill)
      && (forall f :: PointSum(series, f) == TableSum(table, q, f))
      && forall i, j :: 0 <= i < j < |series| ==> series[i].key.bucket <= series[j].key.bucket
  {
    var points := QueryTimeseries(table, q);
    series := points;
    if fill {
      series := FillZeros(points, q.start, q.end, q.step);
    }
    if forall r :: r in table && Selected(r, q) ==> r.bucket >= q.step {
      if fill && |points| == 0 {
        NothingToFill(series, q.start, q.end, q.step);
      }
      AnswerConserves(series, points, table, q, fill);
    }
  }

  lemma NothingToFill(points: seq<Point>, start: nat, end: nat, step: nat)
    requires step > 0 && |points| == 0
    ensures IsFilled(points, points, start, end, step)
  {
  }
}

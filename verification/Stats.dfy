/** The statistics queries over the clicks table: grouping, ordering, time buckets and top labels. */
module Stats {
  import opened Domain
  import opened LinkTable
  import opened ClickLog

  // --- GROUP BY and ORDER BY ---

  // One row of `SELECT key, count(*) ... GROUP BY key`.
  datatype Row<K> = Row(key: K, count: nat)

  function Bump<K(==)>(rows: seq<Row<K>>, k: K): seq<Row<K>> {
    if rows == [] then [Row(k, 1)]
    else if rows[0].key == k then [rows[0].(count := rows[0].count + 1)] + rows[1..]
    else [rows[0]] + Bump(rows[1..], k)
  }

  function Group<K(==)>(keys: seq<K>): seq<Row<K>> {
    if keys == [] then [] else Bump(Group(keys[..|keys| - 1]), keys[|keys| - 1])
  }

  function InsertBy<K>(rows: seq<Row<K>>, r: Row<K>, before: (Row<K>, Row<K>) -> bool): seq<Row<K>> {
    if rows == [] then [r]
    else if before(r, rows[0]) then [r] + rows
    else [rows[0]] + InsertBy(rows[1..], r, before)
  }

  function OrderBy<K>(rows: seq<Row<K>>, before: (Row<K>, Row<K>) -> bool): seq<Row<K>> {
    if rows == [] then [] else InsertBy(OrderBy(rows[1..], before), rows[0], before)
  }

  // The counts of the rows whose key is selected, added up.
  function Sum<K>(rows: seq<Row<K>>, sel: K -> bool): nat {
    if rows == [] then 0 else (if sel(rows[0].key) then rows[0].count else 0) + Sum(rows[1..], sel)
  }

  // How many keys are selected.
  function Selected<K>(keys: seq<K>, sel: K -> bool): nat {
    if keys == [] then 0 else Selected(keys[..|keys| - 1], sel) + if sel(keys[|keys| - 1]) then 1 else 0
  }

  function Any<K>(): K -> bool {
    k => true
  }

  function Is<K(==)>(key: K): K -> bool {
    k => k == key
  }

  predicate DistinctKeys<K(==)>(rows: seq<Row<K>>) {
    forall i, j :: 0 <= i < j < |rows| ==> rows[i].key != rows[j].key
  }

  predicate Ordered<K>(rows: seq<Row<K>>, before: (Row<K>, Row<K>) -> bool) {
    forall i, j :: 0 <= i < j < |rows| ==> before(rows[i], rows[j])
  }

  ghost predicate TotalOrder<K(!new)>(before: (Row<K>, Row<K>) -> bool) {
    && (forall a, b :: before(a, b) || before(b, a))
    && (forall a, b, c :: before(a, b) && before(b, c) ==> before(a, c))
  }

  lemma {:induction false} BumpAdds<K>(rows: seq<Row<K>>, k: K, sel: K -> bool)
    ensures Sum(Bump(rows, k), sel) == Sum(rows, sel) + if sel(k) then 1 else 0
  {
    if rows != [] {
      if rows[0].key == k {
        assert Bump(rows, k)[1..] == rows[1..];
      } else {
        assert Bump(rows, k)[1..] == Bump(rows[1..], k);
        BumpAdds(rows[1..], k, sel);
      }
    }
  }

  function KeysOf<K>(rows: seq<Row<K>>): seq<K> {
    seq(|rows|, i requires 0 <= i < |rows| => rows[i].key)
  }

  lemma {:induction false} BumpKeys<K>(rows: seq<Row<K>>, k: K)
    ensures KeysOf(Bump(rows, k)) == KeysOf(rows) + if k in KeysOf(rows) then [] else [k]
  {
    if rows == [] {
      assert KeysOf([Row(k, 1)]) == [k];
    } else {
      var rest := rows[1..];
      assert KeysOf(rows) == [rows[0].key] + KeysOf(rest);
      if rows[0].key == k {
        assert KeysOf(rows)[0] == k;
      } else {
        BumpKeys(rest, k);
        assert KeysOf(Bump(rows, k)) == [rows[0].key] + KeysOf(Bump(rest, k));
      }
    }
  }

  lemma {:induction false} BumpPositive<K>(rows: seq<Row<K>>, k: K)
    requires forall i :: 0 <= i < |rows| ==> rows[i].count > 0
    ensures forall i :: 0 <= i < |Bump(rows, k)| ==> Bump(rows, k)[i].count > 0
  {
    if rows != [] && rows[0].key != k {
      BumpPositive(rows[1..], k);
    }
  }

  lemma BumpDistinct<K>(rows: seq<Row<K>>, k: K)
    requires DistinctKeys(rows)
    ensures DistinctKeys(Bump(rows, k))
  {
    BumpKeys(rows, k);
    var keys, after := KeysOf(rows), KeysOf(Bump(rows, k));
    assert forall i :: 0 <= i < |keys| ==> keys[i] in keys && after[i] == rows[i].key;
    forall i, j | 0 <= i < j < |after|
      ensures Bump(rows, k)[i].key != Bump(rows, k)[j].key
    {
      assert after[i] != after[j];
    }
  }

  /** GROUP BY gives each key one row, with a positive count, and for any selection of keys the counts of
      their rows add up to the number of grouped entries selected. */
  lemma {:induction false} GroupCounts<K>(keys: seq<K>, sel: K -> bool)
    ensures Sum(Group(keys), sel) == Selected(keys, sel)
    ensures DistinctKeys(Group(keys)) && forall i :: 0 <= i < |Group(keys)| ==> Group(keys)[i].count > 0
  {
    if keys != [] {
      var front, last := keys[..|keys| - 1], keys[|keys| - 1];
      GroupCounts(front, sel);
      BumpAdds(Group(front), last, sel);
      BumpDistinct(Group(front), last);
      BumpPositive(Group(front), last);
    }
  }

  lemma {:induction false} InsertSplits<K>(rows: seq<Row<K>>, r: Row<K>, before: (Row<K>, Row<K>) -> bool)
    returns (at: nat)
    ensures at <= |rows| && InsertBy(rows, r, before) == rows[..at] + [r] + rows[at..]
    ensures forall i :: 0 <= i < at ==> !before(r, rows[i])
    ensures at < |rows| ==> before(r, rows[at])
  {
    if rows == [] || before(r, rows[0]) {
      at := 0;
    } else {
      var rest := InsertSplits(rows[1..], r, before);
      at := rest + 1;
      assert rows[..at] == [rows[0]] + rows[1..][..rest] && rows[at..] == rows[1..][rest..];
    }
  }

  lemma {:induction false} SumConcat<K>(a: seq<Row<K>>, b: seq<Row<K>>, sel: K -> bool)
    ensures Sum(a + b, sel) == Sum(a, sel) + Sum(b, sel)
  {
    if a == [] {
      assert a + b == b;
    } else {
      assert (a + b)[1..] == a[1..] + b;
      SumConcat(a[1..], b, sel);
    }
  }

  lemma InsertOrdered<K(!new)>(rows: seq<Row<K>>, r: Row<K>, before: (Row<K>, Row<K>) -> bool, at: nat)
    requires TotalOrder(before) && Ordered(rows, before) && at <= |rows|
    requires forall i :: 0 <= i < at ==> !before(r, rows[i])
    requires at < |rows| ==> before(r, rows[at])
    ensures Ordered(rows[..at] + [r] + rows[at..], before)
  {
    forall j | at <= j < |rows|
      ensures before(r, rows[j])
    {
      assert j == at || before(rows[at], rows[j]);
    }
  }

  lemma InsertKeeps<K>(rows: seq<Row<K>>, r: Row<K>, before: (Row<K>, Row<K>) -> bool, sel: K -> bool)
    ensures multiset(InsertBy(rows, r, before)) == multiset(rows) + multiset{r}
    ensures Sum(InsertBy(rows, r, before), sel) == Sum(rows, sel) + Sum([r], sel)
  {
    var at := InsertSplits(rows, r, before);
    assert rows == rows[..at] + rows[at..];
    SumConcat(rows[..at], rows[at..], sel);
    SumConcat(rows[..at] + [r], rows[at..], sel);
    SumConcat(rows[..at], [r], sel);
  }

  lemma InsertDistinct<K>(rows: seq<Row<K>>, r: Row<K>, at: nat)
    requires DistinctKeys(rows) && at <= |rows|
    requires forall i :: 0 <= i < |rows| ==> rows[i].key != r.key
    ensures DistinctKeys(rows[..at] + [r] + rows[at..])
  {
  }

  /** ORDER BY permutes the rows and changes no total. */
  lemma {:induction false} OrderBySums<K>(rows: seq<Row<K>>, before: (Row<K>, Row<K>) -> bool, sel: K -> bool)
    ensures multiset(OrderBy(rows, before)) == multiset(rows)
    ensures Sum(OrderBy(rows, before), sel) == Sum(rows, sel)
  {
    if rows != [] {
      OrderBySums(rows[1..], before, sel);
      InsertKeeps(OrderBy(rows[1..], before), rows[0], before, sel);
      assert rows == [rows[0]] + rows[1..];
    }
  }

  lemma {:induction false} OrderByOrders<K(!new)>(rows: seq<Row<K>>, before: (Row<K>, Row<K>) -> bool)
    requires TotalOrder(before)
    ensures Ordered(OrderBy(rows, before), before)
  {
    if rows != [] {
      OrderByOrders(rows[1..], before);
      var at := InsertSplits(OrderBy(rows[1..], before), rows[0], before);
      InsertOrdered(OrderBy(rows[1..], before), rows[0], before, at);
    }
  }

  lemma {:induction false} OrderByDistinct<K>(rows: seq<Row<K>>, before: (Row<K>, Row<K>) -> bool)
    requires DistinctKeys(rows)
    ensures DistinctKeys(OrderBy(rows, before))
  {
    if rows != [] {
      var rest, sorted := rows[1..], OrderBy(rows[1..], before);
      OrderByDistinct(rest, before);
      OrderBySums(rest, before, Any());
      NewKeyAfterPermutation(rest, sorted, rows[0]);
      var at := InsertSplits(sorted, rows[0], before);
      InsertDistinct(sorted, rows[0], at);
    }
  }

  lemma NewKeyAfterPermutation<K>(rest: seq<Row<K>>, sorted: seq<Row<K>>, r: Row<K>)
    requires multiset(rest) == multiset(sorted) && forall i :: 0 <= i < |rest| ==> rest[i].key != r.key
    ensures forall i :: 0 <= i < |sorted| ==> sorted[i].key != r.key
  {
    forall i | 0 <= i < |sorted|
      ensures sorted[i].key != r.key
    {
      assert sorted[i] in multiset(sorted);
      assert sorted[i] in rest;
    }
  }

  lemma {:induction false} SumOfKey<K>(rows: seq<Row<K>>, i: nat)
    requires DistinctKeys(rows) && i < |rows|
    ensures Sum(rows, Is(rows[i].key)) == rows[i].count
  {
    var sel := Is(rows[i].key);
    if i == 0 {
      NothingSelected(rows[1..], sel);
    } else {
      SumOfKey(rows[1..], i - 1);
    }
  }

  lemma {:induction false} NothingSelected<K>(rows: seq<Row<K>>, sel: K -> bool)
    requires forall i :: 0 <= i < |rows| ==> !sel(rows[i].key)
    ensures Sum(rows, sel) == 0
  {
    if rows != [] {
      NothingSelected(rows[1..], sel);
    }
  }

  // Rows that share no key and add up: any one of them is what its key alone selects.
  lemma RowCounts<K(!new)>(keys: seq<K>, before: (Row<K>, Row<K>) -> bool)
    ensures var rows := OrderBy(Group(keys), before);
            && DistinctKeys(rows)
            && (forall i :: 0 <= i < |rows| ==> rows[i].count == Selected(keys, Is(rows[i].key)) > 0)
  {
    var rows := OrderBy(Group(keys), before);
    GroupCounts(keys, Any());
    OrderByDistinct(Group(keys), before);
    forall i | 0 <= i < |rows|
      ensures rows[i].count == Selected(keys, Is(rows[i].key)) > 0
    {
      var sel := Is(rows[i].key);
      GroupCounts(keys, sel);
      OrderBySums(Group(keys), before, sel);
      SumOfKey(rows, i);
      assert rows[i] in multiset(rows);
      assert rows[i] in Group(keys);
    }
  }

  lemma {:induction false} AllSelected<K>(keys: seq<K>)
    ensures Selected(keys, Any()) == |keys|
  {
    if keys != [] {
      AllSelected(keys[..|keys| - 1]);
    }
  }

  // --- time series ---

  datatype Bucket = Hour | Day

  const HOUR := 3_600_000_000
  const DAY := 24 * HOUR

  function Width(b: Bucket): int {
    if b == Hour then HOUR else DAY
  }

  // The latest bucket start not after t, also for t before the epoch.
  function DateTrunc(b: Bucket, t: Time): Time {
    t - t % Width(b)
  }

  predicate Start(b: Bucket, t: Time) {
    DateTrunc(b, t) == t
  }

  datatype Window = Window(tenant: Id, link: Id, from: Time, to: Time)

  predicate InWindow(w: Window, c: Click) {
    c.tenant == w.tenant && c.link == w.link && w.from <= c.at < w.to
  }

  function Where(clicks: seq<Click>, w: Window): seq<Click> {
    if clicks == [] then []
    else Where(clicks[..|clicks| - 1], w) + if InWindow(w, clicks[|clicks| - 1]) then [clicks[|clicks| - 1]] else []
  }

  // TotalForLink.
  function TotalForLink(clicks: seq<Click>, w: Window): nat {
    |Where(clicks, w)|
  }

  // The number of positions whose click satisfies p.
  ghost function Matching(cs: seq<Click>, p: Click -> bool): nat {
    |set i: nat | i < |cs| && p(cs[i])|
  }

  lemma MatchingAppend(cs: seq<Click>, c: Click, p: Click -> bool)
    ensures Matching(cs + [c], p) == Matching(cs, p) + if p(c) then 1 else 0
  {
    var before := set i: nat | i < |cs| && p(cs[i]);
    var after := set i: nat | i < |cs + [c]| && p((cs + [c])[i]);
    assert after == before + if p(c) then {|cs|} else {};
  }

  function InLinkWindow(w: Window): Click -> bool {
    (c: Click) => c.tenant == w.tenant && c.link == w.link && w.from <= c.at < w.to
  }

  /** Only the link's own clicks count, each once: those of that tenant and that link, from `from` on and
      before `to`. */
  lemma {:induction false} TotalIsPositions(clicks: seq<Click>, w: Window)
    ensures TotalForLink(clicks, w) == Matching(clicks, InLinkWindow(w))
  {
    if clicks != [] {
      var front, c := clicks[..|clicks| - 1], clicks[|clicks| - 1];
      assert clicks == front + [c];
      TotalIsPositions(front, w);
      MatchingAppend(front, c, InLinkWindow(w));
    }
  }

  // The clicks table as it would be without any other tenant's or link's rows.
  function Own(clicks: seq<Click>, tenant: Id, link: Id): seq<Click> {
    if clicks == [] then []
    else
      var c := clicks[|clicks| - 1];
      Own(clicks[..|clicks| - 1], tenant, link) + if c.tenant == tenant && c.link == link then [c] else []
  }

  /** Nobody else's clicks matter: without them the window selects the same clicks in the same order, so
      every statistic answers the same. */
  lemma {:induction false} OthersDoNotCount(clicks: seq<Click>, w: Window)
    ensures Where(Own(clicks, w.tenant, w.link), w) == Where(clicks, w)
  {
    if clicks != [] {
      var front, c := clicks[..|clicks| - 1], clicks[|clicks| - 1];
      OthersDoNotCount(front, w);
      var own := Own(front, w.tenant, w.link);
      if c.tenant == w.tenant && c.link == w.link {
        assert (own + [c])[..|own|] == own;
      } else {
        assert own + [] == own && Where(front, w) + [] == Where(front, w);
      }
    }
  }

  /** A window that covers all of a link's clicks totals its click count. */
  lemma {:induction false} WholeWindowIsClickCount(clicks: seq<Click>, w: Window)
    requires forall c :: c in clicks && c.link == w.link ==> c.tenant == w.tenant && w.from <= c.at < w.to
    ensures TotalForLink(clicks, w) == CountFor(clicks, w.link)
  {
    if clicks != [] {
      var front, c := clicks[..|clicks| - 1], clicks[|clicks| - 1];
      assert clicks == front + [c];
      WholeWindowIsClickCount(front, w);
    }
  }

  /** So the points of such a window add up to click_count as the tables keep it. */
  lemma WholeSeriesIsClickCount(db: Db, w: Window, b: Bucket)
    requires CountsMatch(db) && w.link in db.links
    requires forall c :: c in db.clicks && c.link == w.link ==> c.tenant == w.tenant && w.from <= c.at < w.to
    ensures Sum(Series(db.clicks, w, b), Any()) == db.links[w.link].clickCount
  {
    SeriesCounts(db.clicks, w, b);
    WholeWindowIsClickCount(db.clicks, w);
  }

  function Times(cs: seq<Click>, b: Bucket): seq<Time> {
    seq(|cs|, i requires 0 <= i < |cs| => DateTrunc(b, cs[i].at))
  }

  function ByTime(): (Row<Time>, Row<Time>) -> bool {
    (a: Row<Time>, b: Row<Time>) => a.key <= b.key
  }

  function Series(clicks: seq<Click>, w: Window, b: Bucket): seq<Row<Time>> {
    OrderBy(Group(Times(Where(clicks, w), b)), ByTime())
  }

  // The part of the window that falls in the bucket starting at t.
  function Clip(w: Window, b: Bucket, t: Time): Window {
    w.(from := if w.from < t then t else w.from, to := if t + Width(b) < w.to then t + Width(b) else w.to)
  }

  lemma SelectedAppend<K>(keys: seq<K>, k: K, sel: K -> bool)
    ensures Selected(keys + [k], sel) == Selected(keys, sel) + if sel(k) then 1 else 0
  {
    assert (keys + [k])[..|keys|] == keys;
  }

  lemma {:induction false} BucketIsWindow(clicks: seq<Click>, w: Window, b: Bucket, t: Time)
    requires Start(b, t)
    ensures Selected(Times(Where(clicks, w), b), Is(t)) == TotalForLink(clicks, Clip(w, b, t))
  {
    if clicks != [] {
      var front, c := clicks[..|clicks| - 1], clicks[|clicks| - 1];
      BucketIsWindow(front, w, b, t);
      TruncIff(b, c.at, t);
      var cs := Where(front, w);
      if InWindow(w, c) {
        assert Times(Where(clicks, w), b) == Times(cs, b) + [DateTrunc(b, c.at)];
        SelectedAppend(Times(cs, b), DateTrunc(b, c.at), Is(t));
      } else {
        assert Where(clicks, w) == cs;
      }
    }
  }

  lemma TruncIff(b: Bucket, at: Time, t: Time)
    requires Start(b, t)
    ensures DateTrunc(b, at) == t <==> t <= at < t + Width(b)
  {
  }

  lemma TruncIsStart(b: Bucket, t: Time)
    ensures Start(b, DateTrunc(b, t))
  {
  }

  lemma {:induction false} TimesAreStarts(cs: seq<Click>, b: Bucket, t: Time)
    requires Selected(Times(cs, b), Is(t)) > 0
    ensures Start(b, t)
  {
    var front, last := cs[..|cs| - 1], cs[|cs| - 1];
    assert Times(cs, b) == Times(front, b) + [DateTrunc(b, last.at)];
    SelectedAppend(Times(front, b), DateTrunc(b, last.at), Is(t));
    if DateTrunc(b, last.at) == t {
      TruncIsStart(b, last.at);
    } else {
      TimesAreStarts(front, b, t);
    }
  }

  datatype TimePoint = TimePoint(time: Time, count: nat)

  function Points(rows: seq<Row<Time>>): seq<TimePoint> {
    seq(|rows|, i requires 0 <= i < |rows| => TimePoint(rows[i].key, rows[i].count))
  }

  function Sums(points: seq<TimePoint>): nat {
    if points == [] then 0 else points[0].count + Sums(points[1..])
  }

  /** The points come in strictly increasing time, each a bucket start that counts the clicks of the
      window in its bucket, and together they count every click of the window. */
  method SeriesForLink(clicks: seq<Click>, w: Window, b: Bucket) returns (series: seq<TimePoint>)
    ensures forall i, j :: 0 <= i < j < |series| ==> series[i].time < series[j].time
    ensures forall i :: 0 <= i < |series| ==> Start(b, series[i].time)
    ensures forall i :: 0 <= i < |series| ==> series[i].count == TotalForLink(clicks, Clip(w, b, series[i].time)) > 0
    ensures Sums(series) == TotalForLink(clicks, w)
    ensures series == Points(Series(Own(clicks, w.tenant, w.link), w, b))
  {
    OthersDoNotCount(clicks, w);
    var rows := Series(clicks, w, b);
    series := [];
    for i := 0 to |rows|
      invariant series == Points(rows[..i])
    {
      series := series + [TimePoint(rows[i].key, rows[i].count)];
    }
    assert rows[..|rows|] == rows;
    SeriesInOrder(clicks, w, b);
    SeriesCounts(clicks, w, b);
    SumsOfPoints(rows);
  }

  lemma {:induction false} SumsOfPoints(rows: seq<Row<Time>>)
    ensures Sums(Points(rows)) == Sum(rows, Any())
  {
    if rows != [] {
      assert Points(rows)[1..] == Points(rows[1..]);
      SumsOfPoints(rows[1..]);
    }
  }

  lemma SeriesInOrder(clicks: seq<Click>, w: Window, b: Bucket)
    ensures var rows := Series(clicks, w, b); forall i, j :: 0 <= i < j < |rows| ==> rows[i].key < rows[j].key
  {
    var keys, rows := Times(Where(clicks, w), b), Series(clicks, w, b);
    RowCounts(keys, ByTime());
    OrderByOrders(Group(keys), ByTime());
    forall i, j | 0 <= i < j < |rows|
      ensures rows[i].key < rows[j].key
    {
      assert ByTime()(rows[i], rows[j]);
    }
  }

  lemma SeriesCounts(clicks: seq<Click>, w: Window, b: Bucket)
    ensures var rows := Series(clicks, w, b);
            && (forall i :: 0 <= i < |rows| ==>
                  Start(b, rows[i].key) && rows[i].count == TotalForLink(clicks, Clip(w, b, rows[i].key)) > 0)
            && Sum(rows, Any()) == TotalForLink(clicks, w)
  {
    var cs := Where(clicks, w);
    var keys, rows := Times(cs, b), Series(clicks, w, b);
    RowCounts(keys, ByTime());
    forall i | 0 <= i < |rows|
      ensures Start(b, rows[i].key) && rows[i].count == TotalForLink(clicks, Clip(w, b, rows[i].key)) > 0
    {
      TimesAreStarts(cs, b, rows[i].key);
      BucketIsWindow(clicks, w, b, rows[i].key);
    }
    GroupCounts(keys, Any());
    OrderBySums(Group(keys), ByTime(), Any());
    AllSelected(keys);
  }

  // Selects the hours of the day that starts at d.
  function OfDay(d: Time): Time -> bool {
    (t: Time) => DateTrunc(Day, t) == d
  }

  /** On one snapshot each day's point is the sum of the points of its hours. */
  lemma DayIsSumOfItsHours(clicks: seq<Click>, w: Window, d: Time)
    ensures Sum(Series(clicks, w, Day), Is(d)) == Sum(Series(clicks, w, Hour), OfDay(d))
  {
    var cs := Where(clicks, w);
    GroupCounts(Times(cs, Day), Is(d));
    OrderBySums(Group(Times(cs, Day)), ByTime(), Is(d));
    GroupCounts(Times(cs, Hour), OfDay(d));
    OrderBySums(Group(Times(cs, Hour)), ByTime(), OfDay(d));
    DaysThroughHours(cs, d);
  }

  lemma {:induction false} DaysThroughHours(cs: seq<Click>, d: Time)
    ensures Selected(Times(cs, Day), Is(d)) == Selected(Times(cs, Hour), OfDay(d))
  {
    if cs != [] {
      var front, c := cs[..|cs| - 1], cs[|cs| - 1];
      DaysThroughHours(front, d);
      assert Times(cs, Day)[..|cs| - 1] == Times(front, Day);
      assert Times(cs, Hour)[..|cs| - 1] == Times(front, Hour);
      HourInDay(c.at);
    }
  }

  lemma HourInDay(t: Time)
    ensures DateTrunc(Day, DateTrunc(Hour, t)) == DateTrunc(Day, t)
  {
    var d, h := DateTrunc(Day, t), DateTrunc(Hour, t);
    TruncIsStart(Day, t);
    DayStartsAnHour(d);
    TruncIff(Hour, t, h);
    TruncIff(Day, t, d);
    TruncIff(Hour, d, d);
    TruncIff(Day, h, d);
  }

  lemma DayStartsAnHour(d: Time)
    requires Start(Day, d)
    ensures Start(Hour, d)
  {
    assert d == d / DAY * 24 * HOUR;
  }

  // --- top labels ---

  datatype Label = Referrer | Country | Device

  function LabelOf(kind: Label, c: Click): string {
    match kind
    case Referrer => if c.referrer == "" then "(direct)" else c.referrer
    case Country => if c.country == "" then "(unknown)" else c.country
    case Device => if c.device == "" then "unknown" else c.device
  }

  function Labels(kind: Label, cs: seq<Click>): seq<string> {
    seq(|cs|, i requires 0 <= i < |cs| => LabelOf(kind, cs[i]))
  }

  // What each column shows, empty ones under a name of their own.
  lemma LabelIs(c: Click)
    ensures LabelOf(Referrer, c) == c.referrer || (c.referrer == "" && LabelOf(Referrer, c) == "(direct)")
    ensures LabelOf(Country, c) == c.country || (c.country == "" && LabelOf(Country, c) == "(unknown)")
    ensures LabelOf(Device, c) == c.device || (c.device == "" && LabelOf(Device, c) == "unknown")
    ensures forall kind: Label :: LabelOf(kind, c) != ""
  {
  }

  function Shows(kind: Label, l: string): Click -> bool {
    (c: Click) => LabelOf(kind, c) == l
  }

  // A label's count is the number of clicks that show it.
  lemma {:induction false} LabelCounts(kind: Label, cs: seq<Click>, l: string)
    ensures Selected(Labels(kind, cs), Is(l)) == Matching(cs, Shows(kind, l))
  {
    if cs != [] {
      var front, c := cs[..|cs| - 1], cs[|cs| - 1];
      assert cs == front + [c];
      LabelCounts(kind, front, l);
      MatchingAppend(front, c, Shows(kind, l));
      assert Labels(kind, cs) == Labels(kind, front) + [LabelOf(kind, c)];
      SelectedAppend(Labels(kind, front), LabelOf(kind, c), Is(l));
    }
  }

  predicate Leq(a: string, b: string) {
    a == [] || (b != [] && (a[0] < b[0] || (a[0] == b[0] && Leq(a[1..], b[1..]))))
  }

  lemma {:induction false} LeqTotal(a: string, b: string)
    ensures Leq(a, b) || Leq(b, a)
  {
    if a != [] && b != [] {
      LeqTotal(a[1..], b[1..]);
    }
  }

  lemma {:induction false} LeqTransitive(a: string, b: string, c: string)
    requires Leq(a, b) && Leq(b, c)
    ensures Leq(a, c)
  {
    if a != [] && a[0] == b[0] == c[0] {
      LeqTransitive(a[1..], b[1..], c[1..]);
    }
  }

  // ORDER BY n DESC, label.
  function ByCount(): (Row<string>, Row<string>) -> bool {
    (a: Row<string>, b: Row<string>) => a.count > b.count || (a.count == b.count && Leq(a.key, b.key))
  }

  lemma ByCountIsTotal()
    ensures TotalOrder(ByCount())
  {
    forall a: Row<string>, b: Row<string>
      ensures ByCount()(a, b) || ByCount()(b, a)
    {
      LeqTotal(a.key, b.key);
    }
    forall a: Row<string>, b: Row<string>, c: Row<string> | ByCount()(a, b) && ByCount()(b, c)
      ensures ByCount()(a, c)
    {
      if a.count == b.count == c.count {
        LeqTransitive(a.key, b.key, c.key);
      }
    }
  }

  function Ranking(labels: seq<string>): seq<Row<string>> {
    OrderBy(Group(labels), ByCount())
  }

  predicate Omits(rows: seq<Row<string>>, l: string) {
    forall k :: 0 <= k < |rows| ==> rows[k].key != l
  }

  // What a top-N query owes: exact counts, nothing left out that ranks higher, no more than there is.
  ghost predicate IsTop(out: seq<Row<string>>, labels: seq<string>, limit: nat) {
    && |out| <= limit
    && DistinctKeys(out)
    && (forall i :: 0 <= i < |out| ==> out[i].count == Selected(labels, Is(out[i].key)) > 0)
    && (forall i, j :: 0 <= i < j < |out| ==> out[i].count >= out[j].count)
    && (forall l, i :: Omits(out, l) && 0 <= i < |out| ==> Selected(labels, Is(l)) <= out[i].count)
    && Sum(out, Any()) <= |labels|
    && (|out| < limit ==> Sum(out, Any()) == |labels|)
  }

  /** The labels kept dominate every label left out, their counts are exact and add up to at most the
      link's total: to exactly that when the limit did not cut anything off. */
  method LabelQuery(clicks: seq<Click>, kind: Label, w: Window, limit: nat) returns (out: seq<Row<string>>)
    ensures IsTop(out, Labels(kind, Where(clicks, w)), limit)
    ensures IsTop(out, Labels(kind, Where(Own(clicks, w.tenant, w.link), w)), limit)
    ensures Sum(out, Any()) <= TotalForLink(clicks, w)
    ensures |out| < limit ==> Sum(out, Any()) == TotalForLink(clicks, w)
  {
    OthersDoNotCount(clicks, w);
    var labels := Labels(kind, Where(clicks, w));
    out := Top(labels, limit);
  }

  // The LIMIT clause, then the loop over the rows it lets through.
  method Top(labels: seq<string>, limit: nat) returns (out: seq<Row<string>>)
    ensures IsTop(out, labels, limit)
  {
    var ranking := Ranking(labels);
    out := [];
    var n := if limit <= |ranking| then limit else |ranking|;
    for i := 0 to n
      invariant out == ranking[..i]
    {
      out := out + [ranking[i]];
    }
    TopIsTop(labels, limit, n);
  }

  lemma TopIsTop(labels: seq<string>, limit: nat, n: nat)
    requires n == if limit <= |Ranking(labels)| then limit else |Ranking(labels)|
    ensures IsTop(Ranking(labels)[..n], labels, limit)
  {
    TopRanks(labels, n);
    TopAddsUp(labels, n);
  }

  lemma TopAddsUp(labels: seq<string>, n: nat)
    requires n <= |Ranking(labels)|
    ensures Sum(Ranking(labels)[..n], Any()) <= |labels|
    ensures n == |Ranking(labels)| ==> Sum(Ranking(labels)[..n], Any()) == |labels|
  {
    var ranking := Ranking(labels);
    GroupCounts(labels, Any());
    OrderBySums(Group(labels), ByCount(), Any());
    AllSelected(labels);
    assert ranking == ranking[..n] + ranking[n..];
    SumConcat(ranking[..n], ranking[n..], Any());
  }

  lemma TopRanks(labels: seq<string>, n: nat)
    requires n <= |Ranking(labels)|
    ensures var ranking := Ranking(labels);
            && DistinctKeys(ranking)
            && (forall i :: 0 <= i < |ranking| ==> ranking[i].count == Selected(labels, Is(ranking[i].key)) > 0)
            && (forall i, j :: 0 <= i < j < |ranking| ==> ranking[i].count >= ranking[j].count)
            && (forall l, i :: Omits(ranking[..n], l) && 0 <= i < n ==> Selected(labels, Is(l)) <= ranking[i].count)
  {
    var ranking := Ranking(labels);
    RowCounts(labels, ByCount());
    ByCountIsTotal();
    OrderByOrders(Group(labels), ByCount());
    forall i, j | 0 <= i < j < |ranking|
      ensures ranking[i].count >= ranking[j].count
    {
      assert ByCount()(ranking[i], ranking[j]);
    }
    assert forall k :: 0 <= k < n ==> ranking[..n][k] == ranking[k];
    forall l, i | Omits(ranking[..n], l) && 0 <= i < n
      ensures Selected(labels, Is(l)) <= ranking[i].count
    {
      if k :| 0 <= k < |ranking| && ranking[k].key == l {
        assert k >= n;
      } else {
        UnlistedIsAbsent(labels, l);
      }
    }
  }

  lemma UnlistedIsAbsent(labels: seq<string>, l: string)
    requires Omits(Ranking(labels), l)
    ensures Selected(labels, Is(l)) == 0
  {
    GroupCounts(labels, Is(l));
    OrderBySums(Group(labels), ByCount(), Is(l));
    NothingSelected(Ranking(labels), Is(l));
  }

  // --- tenant overview ---

  function OfTenant(clicks: seq<Click>, tenant: Id): seq<Click> {
    if clicks == [] then []
    else OfTenant(clicks[..|clicks| - 1], tenant) +
         if clicks[|clicks| - 1].tenant == tenant then [clicks[|clicks| - 1]] else []
  }

  // The codes of the links the clicks join with.
  function JoinedCodes(links: Table, cs: seq<Click>): seq<string> {
    if cs == [] then []
    else JoinedCodes(links, cs[..|cs| - 1]) +
         if cs[|cs| - 1].link in links then [links[cs[|cs| - 1].link].code] else []
  }

  function HasTenant(tenant: Id): Click -> bool {
    (c: Click) => c.tenant == tenant
  }

  function HasCode(links: Table, tenant: Id, code: string): Click -> bool {
    (c: Click) => c.tenant == tenant && c.link in links && links[c.link].code == code
  }

  // The overview counts the tenant's clicks, each once, and under a code those on links that have it.
  lemma {:induction false} OverviewCounts(links: Table, clicks: seq<Click>, tenant: Id, code: string)
    ensures |OfTenant(clicks, tenant)| == Matching(clicks, HasTenant(tenant))
    ensures Selected(JoinedCodes(links, OfTenant(clicks, tenant)), Is(code)) == Matching(clicks, HasCode(links, tenant, code))
  {
    if clicks != [] {
      var front, c := clicks[..|clicks| - 1], clicks[|clicks| - 1];
      assert clicks == front + [c];
      OverviewCounts(links, front, tenant, code);
      MatchingAppend(front, c, HasTenant(tenant));
      MatchingAppend(front, c, HasCode(links, tenant, code));
      var cs := OfTenant(front, tenant);
      if c.tenant == tenant {
        JoinOneMore(links, cs, c, code);
      } else {
        assert cs + [] == cs;
      }
    }
  }

  lemma JoinOneMore(links: Table, cs: seq<Click>, c: Click, code: string)
    ensures Selected(JoinedCodes(links, cs + [c]), Is(code)) ==
            Selected(JoinedCodes(links, cs), Is(code)) + if c.link in links && links[c.link].code == code then 1 else 0
  {
    assert (cs + [c])[..|cs|] == cs;
    var codes := JoinedCodes(links, cs);
    if c.link in links {
      SelectedAppend(codes, links[c.link].code, Is(code));
    } else {
      assert codes + [] == codes;
    }
  }

  lemma {:induction false} JoinLosesNothing(links: Table, clicks: seq<Click>, tenant: Id)
    requires AllKnown(links, clicks)
    ensures |JoinedCodes(links, OfTenant(clicks, tenant))| == |OfTenant(clicks, tenant)|
  {
    if clicks != [] {
      var front, c := clicks[..|clicks| - 1], clicks[|clicks| - 1];
      JoinLosesNothing(links, front, tenant);
      assert clicks == front + [c];
      if c.tenant == tenant {
        var cs := OfTenant(front, tenant);
        assert OfTenant(clicks, tenant) == cs + [c] && (cs + [c])[..|cs|] == cs;
        assert c in clicks;
      } else {
        assert OfTenant(clicks, tenant) == OfTenant(front, tenant);
      }
    }
  }

  /** With the foreign key in force the join drops no click, so the busiest codes account for at most
      the tenant's total, and for all of it when the limit cut nothing off. */
  method TenantOverview(db: Db, tenant: Id, topN: nat)
    returns (totalLinks: nat, totalClicks: nat, topLinks: seq<Row<string>>)
    requires AllKnown(db.links, db.clicks)
    ensures totalLinks == |set id | id in db.links && db.links[id].tenant == tenant && db.links[id].deletedAt.None?|
    ensures totalClicks == |OfTenant(db.clicks, tenant)|
    ensures IsTop(topLinks, JoinedCodes(db.links, OfTenant(db.clicks, tenant)), topN)
    ensures Sum(topLinks, Any()) <= totalClicks
    ensures |topLinks| < topN ==> Sum(topLinks, Any()) == totalClicks
  {
    var cs := OfTenant(db.clicks, tenant);
    totalLinks := |set id | id in db.links && db.links[id].tenant == tenant && db.links[id].deletedAt.None?|;
    totalClicks := |cs|;
    topLinks := Top(JoinedCodes(db.links, cs), topN);
    JoinLosesNothing(db.links, db.clicks, tenant);
  }
}

/** Metric history: rows clamped when stored, averaged per time bucket, and the bound on the number of buckets. */
module DeviceMetrics {

  const MAX_HOURS := 168
  const MAX_POINTS := 360
  const MIN_BUCKET_SECONDS := 60

  /** A reported value: a float64 that may not be a number, or not finite. */
  datatype Float = Finite(value: real) | Inf(negative: bool) | NaN

  /** A row of device_metrics; `at` is created_at in seconds since the epoch. */
  datatype Row = Row(at: real, cpu: real, ramTotal: int, ramUsed: int, diskTotal: int, diskUsed: int)

  datatype Disk = NoDisk | Disk(total: int, used: int, at: real)

  datatype Point = Point(start: int, cpu: real, ram: real)

  // ---------------------------------------------------------------- what is stored

  /** The percentage a value is taken for. */
  function SanitizeTelemetryFloat(v: Float): (r: real)
    ensures 0.0 <= r <= 100.0
    ensures v.Finite? && 0.0 <= v.value <= 100.0 ==> r == v.value
  {
    match v
    case Finite(x) => if x < 0.0 then 0.0 else if x > 100.0 then 100.0 else x
    case _ => 0.0
  }

  /** What a row promises after the clamps: percentages, no negative size, and no use above a known total. */
  predicate Sound(row: Row) {
    && 0.0 <= row.cpu <= 100.0
    && 0 <= row.ramTotal && 0 <= row.ramUsed && (row.ramTotal > 0 ==> row.ramUsed <= row.ramTotal)
    && 0 <= row.diskTotal && 0 <= row.diskUsed && (row.diskTotal > 0 ==> row.diskUsed <= row.diskTotal)
  }

  /** InsertDeviceMetric: the clamps, in their order. A row that already keeps its promises is stored as it is. */
  method InsertDeviceMetric(at: real, cpuUsage: Float, ramTotal: int, ramUsed: int, diskTotal: int, diskUsed: int)
      returns (row: Row)
    ensures Sound(row) && row.at == at && row.cpu == SanitizeTelemetryFloat(cpuUsage)
    ensures row.cpu == match cpuUsage
                       case Finite(x) => if x < 0.0 then 0.0 else if x > 100.0 then 100.0 else x
                       case Inf(_) => 0.0
                       case NaN => 0.0
    ensures row.ramTotal == (if ramTotal > 0 then ramTotal else 0) && row.diskTotal == if diskTotal > 0 then diskTotal else 0
    ensures row.ramUsed == if ramUsed < 0 then 0 else if 0 < ramTotal < ramUsed then ramTotal else ramUsed
    ensures row.diskUsed == if diskUsed < 0 then 0 else if 0 < diskTotal < diskUsed then diskTotal else diskUsed
    ensures cpuUsage.Finite? && Sound(Row(at, cpuUsage.value, ramTotal, ramUsed, diskTotal, diskUsed)) ==>
      row == Row(at, cpuUsage.value, ramTotal, ramUsed, diskTotal, diskUsed)
    ensures row.ramTotal == NonNegative(ramTotal)
    ensures row.ramUsed in {NonNegative(ramUsed), row.ramTotal} && row.ramUsed <= NonNegative(ramUsed)
    ensures row.diskTotal == NonNegative(diskTotal)
    ensures row.diskUsed in {NonNegative(diskUsed), row.diskTotal} && row.diskUsed <= NonNegative(diskUsed)
    ensures ramTotal <= 0 ==> row.ramUsed == NonNegative(ramUsed)
    ensures diskTotal <= 0 ==> row.diskUsed == NonNegative(diskUsed)
  {
    var cpu := SanitizeTelemetryFloat(cpuUsage);
    var rt, ru, dt, du := NonNegative(ramTotal), NonNegative(ramUsed), NonNegative(diskTotal), NonNegative(diskUsed);
    if du > dt && dt > 0 { du := dt; }
    if ru > rt && rt > 0 { ru := rt; }
    row := Row(at, cpu, rt, ru, dt, du);
  }

  function NonNegative(v: int): int { if v < 0 then 0 else v }

  // ---------------------------------------------------------------- the size of a bucket

  function Hours(asked: int): (h: int)
    ensures 1 <= h <= MAX_HOURS
  {
    if asked < 1 then 24 else if asked > MAX_HOURS then MAX_HOURS else asked
  }

  function BucketSeconds(asked: int): (b: int)
    ensures b >= MIN_BUCKET_SECONDS
  {
    var b := Hours(asked) * 3600 / MAX_POINTS;
    if b < MIN_BUCKET_SECONDS then MIN_BUCKET_SECONDS else b
  }

  /** The window is never longer than 360 buckets, whatever was asked for. */
  lemma {:induction false} WindowFitsPoints(asked: int)
    ensures Hours(asked) * 3600 <= MAX_POINTS * BucketSeconds(asked)
    ensures MIN_BUCKET_SECONDS <= BucketSeconds(asked)
  {
    var h := Hours(asked);
    assert h * 3600 / MAX_POINTS == h * 10;
  }

  /** floor(epoch / bucket) */
  function BucketOf(at: real, bucket: int): int
    requires bucket > 0
  {
    (at / bucket as real).Floor
  }

  lemma {:induction false} Scale(x: real, y: real, w: real)
    requires w > 0.0 && x < y
    ensures x * w < y * w
  {
  }

  /** Rows at most n buckets of time apart are at most n bucket numbers apart. */
  lemma {:induction false} BucketsApart(a: real, b: real, bucket: int, n: nat)
    requires bucket > 0 && a <= b <= a + (n * bucket) as real
    ensures BucketOf(a, bucket) <= BucketOf(b, bucket) <= BucketOf(a, bucket) + n
  {
    assert (n * bucket) as real == n as real * bucket as real;
    QuotientsApart(a, b, bucket as real, n as real);
  }

  lemma {:induction false} QuotientsApart(a: real, b: real, w: real, n: real)
    requires w > 0.0 && a <= b <= a + n * w
    ensures a / w <= b / w <= a / w + n
  {
    var x, y := a / w, b / w;
    assert x * w == a && y * w == b;
    if y < x { Scale(y, x, w); }
    assert (x + n) * w == a + n * w;
    if y > x + n { Scale(x + n, y, w); }
  }

  // ---------------------------------------------------------------- the query

  function RamPercent(row: Row): real
    requires row.ramTotal > 0
  {
    100.0 * row.ramUsed as real / row.ramTotal as real
  }

  /** The rows of one device no older than the cutoff. */
  function Window(rows: seq<Row>, cutoff: real): seq<Row> {
    if rows == [] then []
    else if rows[0].at >= cutoff then [rows[0]] + Window(rows[1..], cutoff)
    else Window(rows[1..], cutoff)
  }

  function InBucket(rows: seq<Row>, bucket: int, k: int): seq<Row>
    requires bucket > 0
  {
    if rows == [] then []
    else if BucketOf(rows[0].at, bucket) == k then [rows[0]] + InBucket(rows[1..], bucket, k)
    else InBucket(rows[1..], bucket, k)
  }

  function Cpus(rows: seq<Row>): seq<real> { if rows == [] then [] else [rows[0].cpu] + Cpus(rows[1..]) }

  /** The CASE has no ELSE: a row without a total counts neither in the sum nor in the number. */
  function Rams(rows: seq<Row>): seq<real> {
    if rows == [] then []
    else if rows[0].ramTotal > 0 then [RamPercent(rows[0])] + Rams(rows[1..])
    else Rams(rows[1..])
  }

  function Sum(xs: seq<real>): real { if xs == [] then 0.0 else xs[0] + Sum(xs[1..]) }

  /** avg, with COALESCE(..., 0) */
  function Average(xs: seq<real>): real { if xs == [] then 0.0 else Sum(xs) / |xs| as real }

  lemma {:induction false} SumBounds(xs: seq<real>)
    requires forall i | 0 <= i < |xs| :: 0.0 <= xs[i] <= 100.0
    ensures 0.0 <= Sum(xs) <= 100.0 * |xs| as real
  {
    if xs != [] {
      SumBounds(xs[1..]);
      assert 100.0 * |xs| as real == 100.0 + 100.0 * |xs[1..]| as real;
    }
  }

  lemma {:induction false} AverageBounds(xs: seq<real>)
    requires forall i | 0 <= i < |xs| :: 0.0 <= xs[i] <= 100.0
    ensures 0.0 <= Average(xs) <= 100.0
  {
    SumBounds(xs);
    if xs != [] {
      QuotientBounds(Sum(xs), |xs| as real, 100.0);
    }
  }

  lemma {:induction false} QuotientBounds(s: real, n: real, c: real)
    requires n > 0.0 && 0.0 <= s <= c * n
    ensures 0.0 <= s / n <= c
  {
    var a := s / n;
    assert a * n == s;
    if a < 0.0 { Scale(a, 0.0, n); }
    if a > c { Scale(c, a, n); }
  }

  lemma {:induction false} RamPercentBounds(row: Row)
    requires Sound(row) && row.ramTotal > 0
    ensures 0.0 <= RamPercent(row) <= 100.0
  {
    PercentBounds(row.ramUsed as real, row.ramTotal as real);
  }

  lemma {:induction false} PercentBounds(u: real, t: real)
    requires 0.0 <= u <= t && t > 0.0
    ensures 0.0 <= 100.0 * u / t <= 100.0
  {
    QuotientBounds(100.0 * u, t, 100.0);
  }

  predicate AllSound(rows: seq<Row>) { forall i | 0 <= i < |rows| :: Sound(rows[i]) }

  lemma {:induction false} ColumnsArePercentages(rows: seq<Row>)
    requires AllSound(rows)
    ensures forall i | 0 <= i < |Cpus(rows)| :: 0.0 <= Cpus(rows)[i] <= 100.0
    ensures forall i | 0 <= i < |Rams(rows)| :: 0.0 <= Rams(rows)[i] <= 100.0
  {
    if rows != [] {
      ColumnsArePercentages(rows[1..]);
      assert Sound(rows[0]);
      if rows[0].ramTotal > 0 { RamPercentBounds(rows[0]); }
    }
  }

  lemma {:induction false} BucketIsSound(rows: seq<Row>, bucket: int, k: int)
    requires AllSound(rows) && bucket > 0
    ensures AllSound(InBucket(rows, bucket, k))
  {
    if rows != [] { BucketIsSound(rows[1..], bucket, k); }
  }

  /** The group of one bucket, as the query returns it. */
  function Group(rows: seq<Row>, bucket: int, k: int): Point
    requires bucket > 0
  {
    var g := InBucket(rows, bucket, k);
    Point(k * bucket, Average(Cpus(g)), Average(Rams(g)))
  }

  /** Averages of stored rows already lie in 0..100, so the clamps of the reader have nothing to do. */
  lemma {:induction false} ClampsAreIdle(rows: seq<Row>, bucket: int, k: int)
    requires AllSound(rows) && bucket > 0
    ensures Clamped(Group(rows, bucket, k)) == Group(rows, bucket, k)
  {
    BucketIsSound(rows, bucket, k);
    var g := InBucket(rows, bucket, k);
    ColumnsArePercentages(g);
    AverageBounds(Cpus(g));
    AverageBounds(Rams(g));
  }

  /** The clamps applied to each scanned row. */
  function Clamped(p: Point): Point {
    p.(cpu := SanitizeTelemetryFloat(Finite(p.cpu)), ram := if p.ram < 0.0 then 0.0 else if p.ram > 100.0 then 100.0 else p.ram)
  }

  /** GROUP BY 1: the bucket numbers that occur. */
  function Buckets(rows: seq<Row>, bucket: int): set<int>
    requires bucket > 0
  {
    set i | 0 <= i < |rows| :: BucketOf(rows[i].at, bucket)
  }

  lemma {:induction false} IntervalSize(s: set<int>, lo: int, n: nat)
    requires forall x | x in s :: lo <= x < lo + n
    ensures |s| <= n
  {
    if n == 0 {
      assert forall x :: x !in s;
    } else {
      IntervalSize(s - {lo + n - 1}, lo, n - 1);
    }
  }

  /** For every requested number of hours and every set of samples between the cutoff and now: at most 361 buckets. */
  lemma {:induction false} AtMost361Buckets(rows: seq<Row>, asked: int, now: real)
    requires forall i | 0 <= i < |rows| :: now - (Hours(asked) * 3600) as real <= rows[i].at <= now
    ensures BucketSeconds(asked) > 0 && |Buckets(rows, BucketSeconds(asked))| <= MAX_POINTS + 1
  {
    WindowFitsPoints(asked);
    var bucket := BucketSeconds(asked);
    var cutoff := now - (Hours(asked) * 3600) as real;
    var lo := BucketOf(cutoff, bucket);
    forall x | x in Buckets(rows, bucket) ensures lo <= x < lo + (MAX_POINTS + 1) {
      var i :| 0 <= i < |rows| && x == BucketOf(rows[i].at, bucket);
      BucketsApart(cutoff, rows[i].at, bucket, MAX_POINTS);
    }
    IntervalSize(Buckets(rows, bucket), lo, MAX_POINTS + 1);
  }

  lemma {:induction false} BucketsBack(now: real, bucket: int, n: int, before: real)
    requires bucket > 0 && before == now - n as real * bucket as real
    ensures BucketOf(before, bucket) == BucketOf(now, bucket) - n
  {
    var w := bucket as real;
    var x, y := now / w, before / w;
    assert x * w == now && y * w == before;
    assert (x - n as real) * w == before;
    if y < x - n as real { Scale(y, x - n as real, w); }
    if y > x - n as real { Scale(x - n as real, y, w); }
  }

  /** The bound is met at every moment: for six hours and more the first and the last bucket are 360 apart. */
  lemma {:induction false} EndsAre360Apart(asked: int, now: real)
    requires Hours(asked) >= 6
    ensures BucketOf(now - (Hours(asked) * 3600) as real, BucketSeconds(asked))
         == BucketOf(now, BucketSeconds(asked)) - MAX_POINTS
  {
    var h := Hours(asked);
    assert h * 3600 / MAX_POINTS == h * 10;
    var bucket, before := BucketSeconds(asked), now - (h * 3600) as real;
    assert bucket == h * 10;
    assert (h * 3600) as real == 360.0 * (h * 10) as real;
    BucketsBack(now, bucket, MAX_POINTS, before);
  }

  // ---------------------------------------------------------------- the series

  predicate Ascending(ks: seq<int>) { forall i, j | 0 <= i < j < |ks| :: ks[i] < ks[j] }

  lemma {:induction false} WindowIsRecent(rows: seq<Row>, cutoff: real, now: real)
    requires AllSound(rows) && forall i | 0 <= i < |rows| :: rows[i].at <= now
    ensures AllSound(Window(rows, cutoff))
    ensures forall i | 0 <= i < |Window(rows, cutoff)| :: cutoff <= Window(rows, cutoff)[i].at <= now
  {
    if rows != [] { WindowIsRecent(rows[1..], cutoff, now); }
  }

  function Inserted(k: int, ks: seq<int>): seq<int> {
    if ks == [] || k < ks[0] then [k] + ks
    else if k == ks[0] then ks
    else [ks[0]] + Inserted(k, ks[1..])
  }

  lemma {:induction false} InsertedElements(k: int, ks: seq<int>)
    ensures forall x :: x in Inserted(k, ks) <==> x == k || x in ks
  {
    if ks != [] && k > ks[0] {
      InsertedElements(k, ks[1..]);
      assert ks == [ks[0]] + ks[1..];
    }
  }

  lemma {:induction false} AscendingCons(k: int, ks: seq<int>)
    requires Ascending(ks) && forall x | x in ks :: k < x
    ensures Ascending([k] + ks)
  {
    var r := [k] + ks;
    forall i, j | 0 <= i < j < |r| ensures r[i] < r[j] {
      assert r[j] == ks[j - 1] && ks[j - 1] in ks;
    }
  }

  lemma {:induction false} InsertedAscends(k: int, ks: seq<int>)
    requires Ascending(ks)
    ensures Ascending(Inserted(k, ks))
  {
    if ks != [] {
      assert forall x | x in ks[1..] :: ks[0] < x;
      assert forall x | x in ks :: ks[0] <= x;
      if k < ks[0] {
        AscendingCons(k, ks);
      } else if k > ks[0] {
        InsertedAscends(k, ks[1..]);
        InsertedElements(k, ks[1..]);
        AscendingCons(ks[0], Inserted(k, ks[1..]));
      }
    }
  }

  /** GROUP BY 1 ORDER BY 1 ASC */
  function BucketList(rows: seq<Row>, bucket: int): seq<int>
    requires bucket > 0
  {
    if rows == [] then [] else Inserted(BucketOf(rows[0].at, bucket), BucketList(rows[1..], bucket))
  }

  lemma {:induction false} BucketListRight(rows: seq<Row>, bucket: int)
    requires bucket > 0
    ensures Ascending(BucketList(rows, bucket)) && |BucketList(rows, bucket)| == |Buckets(rows, bucket)|
    ensures forall k :: k in BucketList(rows, bucket) <==> k in Buckets(rows, bucket)
  {
    if rows != [] {
      BucketListRight(rows[1..], bucket);
      InsertedAscends(BucketOf(rows[0].at, bucket), BucketList(rows[1..], bucket));
      InsertedElements(BucketOf(rows[0].at, bucket), BucketList(rows[1..], bucket));
      BucketsCons(rows, bucket);
    }
    AscendingCount(BucketList(rows, bucket), Buckets(rows, bucket));
  }

  lemma {:induction false} BucketsCons(rows: seq<Row>, bucket: int)
    requires bucket > 0 && rows != []
    ensures Buckets(rows, bucket) == {BucketOf(rows[0].at, bucket)} + Buckets(rows[1..], bucket)
  {
    assert forall i | 0 < i < |rows| :: rows[i] == rows[1..][i - 1];
    assert forall i | 0 <= i < |rows| - 1 :: rows[1..][i] == rows[i + 1];
  }

  /** ORDER BY created_at DESC LIMIT 1 */
  function Latest(rows: seq<Row>): (r: Row)
    requires rows != []
    ensures r in rows && forall x | x in rows :: x.at <= r.at
  {
    if |rows| == 1 then rows[0]
    else
      var r := Latest(rows[1..]);
      assert rows == [rows[0]] + rows[1..];
      if rows[0].at >= r.at then rows[0] else r
  }

  /** The most recent disk sample of a window, if it says anything. */
  function DiskOf(w: seq<Row>): Disk {
    if w == [] || (Latest(w).diskTotal == 0 && Latest(w).diskUsed == 0) then NoDisk
    else Disk(Latest(w).diskTotal, Latest(w).diskUsed, Latest(w).at)
  }

  /** For stored rows, the tests and the clamp of the reader come to just that. */
  method LatestDisk(w: seq<Row>) returns (disk: Disk)
    requires AllSound(w)
    ensures disk == DiskOf(w)
  {
    if w == [] { return NoDisk; }
    var r := Latest(w);
    SoundMember(w, r);
    var dt, du := r.diskTotal, r.diskUsed;
    if !(dt > 0 || du > 0) { return NoDisk; }
    if du > dt && dt > 0 { du := dt; }
    disk := Disk(dt, du, r.at);
  }

  /** One point for every bucket, in order, each the group as the query averages it. */
  predicate IsSeries(series: seq<Point>, w: seq<Row>, bucket: int)
    requires bucket > 0
  {
    |series| == |BucketList(w, bucket)|
    && forall i | 0 <= i < |series| :: series[i] == Group(w, bucket, BucketList(w, bucket)[i])
  }

  /** The loop over the grouped rows, with the clamps of the reader. */
  method LoadSeries(w: seq<Row>, bucket: int) returns (series: seq<Point>)
    requires AllSound(w) && bucket > 0
    ensures IsSeries(series, w, bucket)
  {
    var ks := BucketList(w, bucket);
    series := [];
    for n := 0 to |ks|
      invariant |series| == n
      invariant forall i | 0 <= i < n :: series[i] == Group(w, bucket, ks[i])
    {
      var p := Group(w, bucket, ks[n]);
      ClampsAreIdle(w, bucket, ks[n]);
      p := p.(cpu := SanitizeTelemetryFloat(Finite(p.cpu)));
      if p.ram < 0.0 { p := p.(ram := 0.0); }
      if p.ram > 100.0 { p := p.(ram := 100.0); }
      series := series + [p];
    }
  }

  // ---------------------------------------------------------------- the series, from the rows

  /** A row of the window that falls into the bucket that begins at `start`. */
  predicate Falls(row: Row, cutoff: real, start: int, bucket: int) {
    row.at >= cutoff && start as real <= row.at < (start + bucket) as real
  }

  function CpuSum(rows: seq<Row>, cutoff: real, start: int, bucket: int): real {
    if rows == [] then 0.0
    else (if Falls(rows[0], cutoff, start, bucket) then rows[0].cpu else 0.0) + CpuSum(rows[1..], cutoff, start, bucket)
  }

  function CpuCount(rows: seq<Row>, cutoff: real, start: int, bucket: int): nat {
    if rows == [] then 0
    else (if Falls(rows[0], cutoff, start, bucket) then 1 else 0) + CpuCount(rows[1..], cutoff, start, bucket)
  }

  /** Rows that do not say how much memory there is do not count. */
  predicate FallsWithRam(row: Row, cutoff: real, start: int, bucket: int) {
    Falls(row, cutoff, start, bucket) && row.ramTotal > 0
  }

  function RamSum(rows: seq<Row>, cutoff: real, start: int, bucket: int): real {
    if rows == [] then 0.0
    else (if FallsWithRam(rows[0], cutoff, start, bucket) then 100.0 * rows[0].ramUsed as real / rows[0].ramTotal as real
          else 0.0) + RamSum(rows[1..], cutoff, start, bucket)
  }

  function RamCount(rows: seq<Row>, cutoff: real, start: int, bucket: int): nat {
    if rows == [] then 0
    else (if FallsWithRam(rows[0], cutoff, start, bucket) then 1 else 0) + RamCount(rows[1..], cutoff, start, bucket)
  }

  /** The point is the averages of the rows in its bucket, of which there is one at least; where none says how much memory
      there is, its memory is 0. */
  predicate IsPointOf(p: Point, rows: seq<Row>, cutoff: real, bucket: int) {
    var n, m := CpuCount(rows, cutoff, p.start, bucket), RamCount(rows, cutoff, p.start, bucket);
    && n > 0 && p.cpu * n as real == CpuSum(rows, cutoff, p.start, bucket)
    && (if m > 0 then p.ram * m as real == RamSum(rows, cutoff, p.start, bucket) else p.ram == 0.0)
  }

  /** Every point is one of its rows, and every row of the window is in the bucket of a point. */
  predicate AveragesRows(series: seq<Point>, rows: seq<Row>, cutoff: real, bucket: int) {
    && (forall i | 0 <= i < |series| :: IsPointOf(series[i], rows, cutoff, bucket))
    && forall i | 0 <= i < |rows| :: rows[i].at >= cutoff ==>
         exists j | 0 <= j < |series| :: Falls(rows[i], cutoff, series[j].start, bucket)
  }

  lemma {:induction false} Between(at: real, w: real, k: int)
    requires w > 0.0
    ensures (at / w).Floor == k <==> k as real * w <= at < k as real * w + w
  {
    Quotient(at, w);
    Crosses(at / w, k as real, w, at);
    Crosses(at / w, k as real + 1.0, w, at);
    Next(k as real, w);
  }

  lemma {:induction false} Next(c: real, w: real)
    ensures (c + 1.0) * w == c * w + w
  {
  }

  lemma {:induction false} Crosses(x: real, c: real, w: real, at: real)
    requires w > 0.0 && x * w == at
    ensures x < c <==> at < c * w
  {
    if x < c { Scale(x, c, w); }
    if c < x { Scale(c, x, w); }
  }

  lemma {:induction false} BucketIff(row: Row, cutoff: real, bucket: int, k: int)
    requires bucket > 0 && row.at >= cutoff
    ensures BucketOf(row.at, bucket) == k <==> Falls(row, cutoff, k * bucket, bucket)
  {
    Between(row.at, bucket as real, k);
    assert (k * bucket) as real == k as real * bucket as real;
    assert (k * bucket + bucket) as real == (k * bucket) as real + bucket as real;
  }

  lemma {:induction false} GroupSums(rows: seq<Row>, cutoff: real, bucket: int, k: int)
    requires bucket > 0
    ensures var g := InBucket(Window(rows, cutoff), bucket, k);
      && Sum(Cpus(g)) == CpuSum(rows, cutoff, k * bucket, bucket) && |Cpus(g)| == CpuCount(rows, cutoff, k * bucket, bucket)
      && Sum(Rams(g)) == RamSum(rows, cutoff, k * bucket, bucket) && |Rams(g)| == RamCount(rows, cutoff, k * bucket, bucket)
  {
    if rows != [] {
      GroupSums(rows[1..], cutoff, bucket, k);
      if rows[0].at >= cutoff {
        BucketIff(rows[0], cutoff, bucket, k);
        WindowHead(rows, cutoff, bucket, k);
      }
    }
  }

  lemma {:induction false} WindowHead(rows: seq<Row>, cutoff: real, bucket: int, k: int)
    requires bucket > 0 && rows != [] && rows[0].at >= cutoff
    ensures InBucket(Window(rows, cutoff), bucket, k)
         == if BucketOf(rows[0].at, bucket) == k then [rows[0]] + InBucket(Window(rows[1..], cutoff), bucket, k)
            else InBucket(Window(rows[1..], cutoff), bucket, k)
  {
    var w := Window(rows, cutoff);
    assert w[0] == rows[0] && w[1..] == Window(rows[1..], cutoff);
  }

  lemma {:induction false} AverageTimes(xs: seq<real>)
    ensures Average(xs) * |xs| as real == Sum(xs)
  {
    if xs != [] { Quotient(Sum(xs), |xs| as real); }
  }

  lemma {:induction false} Quotient(s: real, n: real)
    requires n > 0.0
    ensures s / n * n == s
  {
  }

  lemma {:induction false} GroupIsPoint(rows: seq<Row>, cutoff: real, bucket: int, k: int)
    requires bucket > 0 && InBucket(Window(rows, cutoff), bucket, k) != []
    ensures IsPointOf(Group(Window(rows, cutoff), bucket, k), rows, cutoff, bucket)
  {
    var g := InBucket(Window(rows, cutoff), bucket, k);
    GroupSums(rows, cutoff, bucket, k);
    PointOfGroup(g, k * bucket, rows, cutoff, bucket);
  }

  lemma {:induction false} PointOfGroup(g: seq<Row>, start: int, rows: seq<Row>, cutoff: real, bucket: int)
    requires g != []
    requires Sum(Cpus(g)) == CpuSum(rows, cutoff, start, bucket) && |Cpus(g)| == CpuCount(rows, cutoff, start, bucket)
    requires Sum(Rams(g)) == RamSum(rows, cutoff, start, bucket) && |Rams(g)| == RamCount(rows, cutoff, start, bucket)
    ensures IsPointOf(Point(start, Average(Cpus(g)), Average(Rams(g))), rows, cutoff, bucket)
  {
    MeanOf(Cpus(g), CpuCount(rows, cutoff, start, bucket), CpuSum(rows, cutoff, start, bucket));
    MeanOf(Rams(g), RamCount(rows, cutoff, start, bucket), RamSum(rows, cutoff, start, bucket));
  }

  lemma {:induction false} MeanOf(xs: seq<real>, n: nat, sum: real)
    requires n == |xs| && sum == Sum(xs)
    ensures Average(xs) * n as real == sum && (n == 0 ==> Average(xs) == 0.0)
  {
    AverageTimes(xs);
  }

  lemma {:induction false} BucketNotEmpty(w: seq<Row>, bucket: int, i: nat)
    requires bucket > 0 && i < |w|
    ensures InBucket(w, bucket, BucketOf(w[i].at, bucket)) != []
  {
    if i > 0 { BucketNotEmpty(w[1..], bucket, i - 1); }
  }

  lemma {:induction false} InWindow(rows: seq<Row>, cutoff: real, i: nat) returns (j: nat)
    requires i < |rows| && rows[i].at >= cutoff
    ensures j < |Window(rows, cutoff)| && Window(rows, cutoff)[j] == rows[i]
  {
    if i == 0 {
      j := 0;
    } else {
      j := InWindow(rows[1..], cutoff, i - 1);
      if rows[0].at >= cutoff { j := j + 1; }
    }
  }

  lemma {:induction false} SeriesAverages(series: seq<Point>, rows: seq<Row>, cutoff: real, bucket: int)
    requires bucket > 0 && IsSeries(series, Window(rows, cutoff), bucket)
    ensures AveragesRows(series, rows, cutoff, bucket)
  {
    var w := Window(rows, cutoff);
    var ks := BucketList(w, bucket);
    BucketListRight(w, bucket);
    forall i | 0 <= i < |series| ensures IsPointOf(series[i], rows, cutoff, bucket) {
      assert ks[i] in ks && ks[i] in Buckets(w, bucket);
      var j :| 0 <= j < |w| && BucketOf(w[j].at, bucket) == ks[i];
      BucketNotEmpty(w, bucket, j);
      GroupIsPoint(rows, cutoff, bucket, ks[i]);
    }
    forall i | 0 <= i < |rows| && rows[i].at >= cutoff
      ensures exists j | 0 <= j < |series| :: Falls(rows[i], cutoff, series[j].start, bucket)
    {
      var l := InWindow(rows, cutoff, i);
      var k := BucketOf(w[l].at, bucket);
      assert k in Buckets(w, bucket) && k in ks;
      var j :| 0 <= j < |ks| && ks[j] == k;
      BucketIff(rows[i], cutoff, bucket, k);
      assert series[j].start == k * bucket;
    }
  }

  /** The disk of the latest row of the window, if there is one and it says anything. */
  predicate IsLatestDisk(disk: Disk, rows: seq<Row>, cutoff: real) {
    if forall i | 0 <= i < |rows| :: rows[i].at < cutoff then disk == NoDisk
    else exists i | 0 <= i < |rows| ::
      && rows[i].at >= cutoff && (forall j | 0 <= j < |rows| :: rows[j].at <= rows[i].at)
      && disk == if rows[i].diskTotal == 0 && rows[i].diskUsed == 0 then NoDisk
                 else Disk(rows[i].diskTotal, rows[i].diskUsed, rows[i].at)
  }

  lemma {:induction false} FromWindow(rows: seq<Row>, cutoff: real, j: nat) returns (i: nat)
    requires j < |Window(rows, cutoff)|
    ensures i < |rows| && rows[i] == Window(rows, cutoff)[j] && rows[i].at >= cutoff
  {
    if rows[0].at >= cutoff && j == 0 {
      i := 0;
    } else {
      i := FromWindow(rows[1..], cutoff, if rows[0].at >= cutoff then j - 1 else j);
      i := i + 1;
    }
  }

  lemma {:induction false} DiskIsLatest(rows: seq<Row>, cutoff: real)
    ensures IsLatestDisk(DiskOf(Window(rows, cutoff)), rows, cutoff)
  {
    var w := Window(rows, cutoff);
    if w == [] {
      forall i | 0 <= i < |rows| ensures rows[i].at < cutoff {
        if rows[i].at >= cutoff { var j := InWindow(rows, cutoff, i); }
      }
    } else {
      var r := Latest(w);
      var j :| 0 <= j < |w| && w[j] == r;
      var i := FromWindow(rows, cutoff, j);
      forall l | 0 <= l < |rows| ensures rows[l].at <= rows[i].at {
        if rows[l].at >= cutoff {
          var m := InWindow(rows, cutoff, l);
          assert w[m] in w;
        }
      }
    }
  }

  function Cutoff(now: real, hours: int): real { now - (hours * 3600) as real }

  /** LoadDeviceMetricHistory: one point per bucket, in order, each the averages of its rows, none altered by a clamp, and at
      most 361 of them; and the most recent disk sample of the window. */
  method LoadDeviceMetricHistory(rows: seq<Row>, asked: int, now: real)
      returns (hours: int, bucket: int, series: seq<Point>, disk: Disk)
    requires AllSound(rows) && forall i | 0 <= i < |rows| :: rows[i].at <= now
    ensures hours == (if asked < 1 then 24 else if asked > 168 then 168 else asked) == Hours(asked)
    ensures bucket == (if hours < 6 then 60 else 10 * hours) == BucketSeconds(asked)
    ensures AveragesRows(series, rows, Cutoff(now, hours), bucket) && IsLatestDisk(disk, rows, Cutoff(now, hours))
    ensures |series| <= 361 && forall i, j | 0 <= i < j < |series| :: series[i].start < series[j].start
  {
    hours, bucket := HistoryWindow(asked);
    series, disk := LoadWindow(rows, Cutoff(now, hours), bucket, asked, now);
  }

  /** The two queries over the window. */
  method LoadWindow(rows: seq<Row>, cutoff: real, bucket: int, ghost asked: int, ghost now: real)
      returns (series: seq<Point>, disk: Disk)
    requires AllSound(rows) && forall i | 0 <= i < |rows| :: rows[i].at <= now
    requires bucket == BucketSeconds(asked) && cutoff == Cutoff(now, Hours(asked))
    ensures AveragesRows(series, rows, cutoff, bucket) && IsLatestDisk(disk, rows, cutoff)
    ensures |series| <= 361 && forall i, j | 0 <= i < j < |series| :: series[i].start < series[j].start
  {
    var w := Window(rows, cutoff);
    WindowIsRecent(rows, cutoff, now);
    AtMost361Buckets(w, asked, now);
    BucketListRight(w, bucket);
    series := LoadSeries(w, bucket);
    SeriesAscends(series, w, bucket);
    disk := LatestDisk(w);
    SeriesAverages(series, rows, cutoff, bucket);
    DiskIsLatest(rows, cutoff);
  }

  /** The clamps on the request: 24 hours by default, a week at most, and buckets of a minute at least. */
  method HistoryWindow(asked: int) returns (hours: int, bucket: int)
    ensures hours == Hours(asked) && bucket == BucketSeconds(asked) > 0
    ensures hours == if asked < 1 then 24 else if asked > 168 then 168 else asked
    ensures bucket == if hours < 6 then 60 else 10 * hours
  {
    hours := asked;
    if hours < 1 { hours := 24; }
    if hours > MAX_HOURS { hours := MAX_HOURS; }
    bucket := hours * 3600 / MAX_POINTS;
    if bucket < MIN_BUCKET_SECONDS { bucket := MIN_BUCKET_SECONDS; }
  }

  lemma {:induction false} SeriesAscends(series: seq<Point>, w: seq<Row>, bucket: int)
    requires bucket > 0 && IsSeries(series, w, bucket)
    ensures forall i, j | 0 <= i < j < |series| :: series[i].start < series[j].start
  {
    BucketListRight(w, bucket);
    forall i, j | 0 <= i < j < |series| ensures series[i].start < series[j].start {
      PointsAscend(w, bucket, BucketList(w, bucket), i, j);
    }
  }

  lemma {:induction false} SoundMember(rows: seq<Row>, r: Row)
    requires AllSound(rows) && r in rows
    ensures Sound(r)
  {
    var i: nat :| i < |rows| && rows[i] == r;
  }

  lemma {:induction false} PointsAscend(rows: seq<Row>, bucket: int, ks: seq<int>, i: nat, j: nat)
    requires Ascending(ks) && bucket > 0 && i < j < |ks|
    ensures Group(rows, bucket, ks[i]).start < Group(rows, bucket, ks[j]).start
  {
    assert ks[i] < ks[j];
    assert (ks[j] - ks[i]) * bucket > 0;
  }

  lemma {:induction false} AscendingCount(ks: seq<int>, s: set<int>)
    requires Ascending(ks) && forall k :: k in ks <==> k in s
    ensures |ks| == |s|
  {
    if ks == [] {
      assert forall x :: x in s ==> x in ks;
      assert s == {};
    } else {
      var last := ks[|ks| - 1];
      assert last in ks;
      forall k ensures k in ks[..|ks| - 1] <==> k in s - {last} {
        assert k in ks <==> k in ks[..|ks| - 1] || k == last;
      }
      AscendingCount(ks[..|ks| - 1], s - {last});
    }
  }
}

/** The derived table columns: popularity range labels and formatted durations. */
module Popularity {
  import opened Basics
  import opened Catalog

  datatype Bucket = HiddenGems | Common | Popular

  /** The label text shown for each range. */
  function BucketLabel(b: Bucket): string
  {
    match b
    case HiddenGems => "Hidden Gems (0-30%)"
    case Common => "Common (30-60%)"
    case Popular => "Popular (60-100%)"
  }

  /**
   * Binning with edges -1, 30, 60, 101 and right-closed intervals (-1,30], (30,60], (60,101]:
   * 30 and 60 fall in the lower range, every valid popularity gets a label, and a score
   * outside (-1,101] falls in no bin (a missing value).
   */
  function BucketOf(p: int): (r: Option<Bucket>)
    ensures r == Some(HiddenGems) <==> 0 <= p <= 30
    ensures r == Some(Common) <==> 31 <= p <= 60
    ensures r == Some(Popular) <==> 61 <= p <= 101
    ensures r == None <==> p < 0 || p > 101
    ensures 0 <= p <= 100 ==> r.Some?
  {
    if -1 < p <= 30 then Some(HiddenGems)
    else if 30 < p <= 60 then Some(Common)
    else if 60 < p <= 101 then Some(Popular)
    else None
  }

  /** The label text the popularity column shows, if the popularity falls in a bin. */
  function BucketText(p: int): (r: Option<string>)
    ensures r.Some? <==> -1 < p <= 101
  {
    match BucketOf(p)
    case None => None
    case Some(b) => Some(BucketLabel(b))
  }

  /** The boundaries 30 and 60 show the lower range's text; 0, 31, 61 and 100 the expected ones. */
  lemma BucketTextBoundaries()
    ensures BucketText(0) == Some("Hidden Gems (0-30%)") && BucketText(30) == Some("Hidden Gems (0-30%)")
    ensures BucketText(31) == Some("Common (30-60%)") && BucketText(60) == Some("Common (30-60%)")
    ensures BucketText(61) == Some("Popular (60-100%)") && BucketText(100) == Some("Popular (60-100%)")
  {
  }

  /** Distinct ranges show distinct texts. */
  lemma BucketLabelInjective(a: Bucket, b: Bucket)
    ensures BucketLabel(a) == BucketLabel(b) <==> a == b
  {
    if a != b {
      assert BucketLabel(a)[0] != BucketLabel(b)[0];
    }
  }

  function Rank(b: Bucket): nat
  {
    match b
    case HiddenGems => 0
    case Common => 1
    case Popular => 2
  }

  /** A more popular track never lands in a lower range. */
  lemma BucketOfMonotone(p: int, q: int)
    requires 0 <= p <= q <= 100
    ensures Rank(BucketOf(p).value) <= Rank(BucketOf(q).value)
  {
  }

  /** The popularity column of the table, labelled entry by entry. */
  function BucketColumn(pops: seq<int>): (r: seq<Option<Bucket>>)
    ensures |r| == |pops|
    ensures forall k :: 0 <= k < |pops| && 0 <= pops[k] <= 100 ==> r[k].Some?
    ensures forall k :: 0 <= k < |pops| ==> r[k] == BucketOf(pops[k])
  {
    seq(|pops|, k requires 0 <= k < |pops| => BucketOf(pops[k]))
  }

  // ---------------------------------------------------------------------------
  // Durations, in integer milliseconds. With a positive divisor Python's floor division and
  // modulo agree with Dafny's Euclidean `/` and `%`, so no sign case is needed.

  const MsPerSecond: int := 1000
  const MsPerMinute: int := 60 * MsPerSecond
  const MsPerHour: int := 60 * MsPerMinute

  /** `"{minutes}m {seconds}s"` as its two numbers. */
  datatype MinSec = MinSec(minutes: int, seconds: int)

  function FormatDuration(ms: int): (r: MinSec)
    ensures 0 <= r.seconds < 60
    ensures ms >= 0 ==> r.minutes >= 0
    ensures r.minutes * MsPerMinute + r.seconds * MsPerSecond <= ms
    ensures ms < r.minutes * MsPerMinute + r.seconds * MsPerSecond + MsPerSecond
  {
    MinSec(ms / MsPerMinute, (ms % MsPerMinute) / MsPerSecond)
  }

  /** Two durations print the same exactly when they agree to the whole second. */
  lemma FormatDurationWholeSeconds(a: int, b: int)
    ensures FormatDuration(a) == FormatDuration(b) <==> a / MsPerSecond == b / MsPerSecond
  {
    var fa, fb := FormatDuration(a), FormatDuration(b);
    var sa := fa.minutes * 60 + fa.seconds;
    var sb := fb.minutes * 60 + fb.seconds;
    assert sa * MsPerSecond <= a < sa * MsPerSecond + MsPerSecond;
    assert sb * MsPerSecond <= b < sb * MsPerSecond + MsPerSecond;
    assert a / MsPerSecond == sa;
    assert b / MsPerSecond == sb;
    if sa == sb {
      assert fa.minutes == sa / 60 && fa.seconds == sa % 60;
      assert fb.minutes == sb / 60 && fb.seconds == sb % 60;
    }
  }

  /** The playlist header: whole hours and the remaining whole minutes. */
  datatype HoursMinutes = HoursMinutes(hours: int, minutes: int)

  function FormatTotal(totalMs: int): (r: HoursMinutes)
    ensures 0 <= r.minutes < 60
    ensures r.hours * MsPerHour + r.minutes * MsPerMinute <= totalMs
    ensures totalMs < r.hours * MsPerHour + r.minutes * MsPerMinute + MsPerMinute
  {
    HoursMinutes(totalMs / MsPerHour, (totalMs % MsPerHour) / MsPerMinute)
  }

  /** The playlist header: the table's total playing time in hours and minutes. */
  function TotalLength(items: seq<Track>): HoursMinutes
  {
    FormatTotal(CombinedDuration(items))
  }

  /**
   * With non-negative durations the total is non-negative, so the header never shows negative
   * hours.
   */
  lemma TotalLengthNonNegative(items: seq<Track>)
    requires forall k :: 0 <= k < |items| ==> items[k].durationMs >= 0
    ensures CombinedDuration(items) >= 0
    ensures TotalLength(items).hours >= 0
  {
    var c := PlaylistColumns(items);
    forall r | 0 <= r < |c.durations| ensures c.durations[r] >= 0 {
      PlaylistColumnsRow(items, r);
    }
    SumNonNegative(c.durations);
  }

  /**
   * The total is read off the name-keyed table, so a track whose name repeats is counted once,
   * with the duration of its last occurrence.
   */
  lemma TotalLengthCountsNameOnce(t: Track, u: Track)
    requires t.name == u.name
    ensures CombinedDuration([t, u]) == u.durationMs
  {
    assert [t, u][..1] == [t];
    assert [t][..0] == [];
    assert TrackKeys([t]) == [t.name];
    assert TrackTable([t]) == map[t.name := InfoOf(t)];
    assert TrackKeys([t, u]) == [t.name];
    assert TrackTable([t, u]) == map[u.name := InfoOf(u)];
    assert PlaylistColumns([t, u]).durations == [u.durationMs];
    assert [u.durationMs][..0] == [];
    assert Sum([u.durationMs]) == Sum([]) + u.durationMs;
  }
}

/**
 * The records the analyser works on: playlist items as the catalogue service returns them,
 * the per-name track table built from them, and the parallel columns read off that table.
 */
module Catalog {
  import opened Basics
  import Strings

  /** One artist credit on a track: catalogue id and display name. */
  datatype Artist = Artist(id: string, name: string)

  /**
   * One playlist item's `track` payload. `id` is absent (or empty) for unavailable tracks;
   * `name` need not be unique within a playlist.
   */
  datatype Track = Track(
    id: Option<string>,
    name: string,
    uri: string,
    artists: seq<Artist>,
    popularity: int,
    durationMs: int,
    album: string,
    releaseDate: string)

  /** One page of playlist items; `hasNext` says whether a continuation page exists. */
  datatype Page = Page(items: seq<Track>, hasNext: bool)

  /** The value stored per track name in the track table. */
  datatype TrackInfo = TrackInfo(
    artists: seq<string>,
    popularity: int,
    duration: int,
    album: string,
    releaseDate: string)

  /** The `artist` column: the artist names joined with ", ". */
  function ArtistLabel(info: TrackInfo): string
  {
    Strings.Join(info.artists)
  }

  /** A track id is sent to the service only when it is present and non-empty (truthy). */
  predicate HasId(t: Track)
  {
    t.id.Some? && t.id.value != ""
  }

  function ArtistNames(artists: seq<Artist>): (r: seq<string>)
    ensures |r| == |artists|
    ensures forall k :: 0 <= k < |artists| ==> r[k] == artists[k].name
  {
    if artists == [] then [] else ArtistNames(artists[..|artists| - 1]) + [artists[|artists| - 1].name]
  }

  /** The table entry one playlist item produces. */
  function InfoOf(t: Track): TrackInfo
  {
    TrackInfo(ArtistNames(t.artists), t.popularity, t.durationMs, t.album, t.releaseDate)
  }

  // ---------------------------------------------------------------------------
  // Pagination

  /**
   * The items gathered by draining pagination: every page is taken in order, and the first
   * page without a continuation ends the drain (pages after it are never requested).
   */
  function Drained(pages: seq<Page>): seq<Track>
  {
    if pages == [] then []
    else if !pages[0].hasNext then pages[0].items
    else pages[0].items + Drained(pages[1..])
  }

  /** Pages after the first page without a continuation do not influence the drain. */
  lemma {:induction false} DrainedStopsAtLastPage(pages: seq<Page>, extra: seq<Page>, k: nat)
    requires k < |pages| && !pages[k].hasNext
    ensures Drained(pages + extra) == Drained(pages)
  {
    if k > 0 && pages[0].hasNext {
      assert (pages + extra)[1..] == pages[1..] + extra;
      DrainedStopsAtLastPage(pages[1..], extra, k - 1);
    }
  }

  /**
   * When every page but the last has a continuation, the drain is the concatenation of every
   * page's items, and holds as many items as the pages together.
   */
  lemma {:induction false} DrainedAllPages(pages: seq<Page>)
    requires forall k :: 0 <= k < |pages| - 1 ==> pages[k].hasNext
    ensures Drained(pages) == AllItems(pages)
    ensures |Drained(pages)| == SumItems(pages)
  {
    if pages != [] {
      if |pages| > 1 {
        assert pages[0].hasNext;
        DrainedAllPages(pages[1..]);
      } else {
        assert pages[1..] == [];
      }
    }
  }

  /** Every page's items, in page order. */
  function AllItems(pages: seq<Page>): seq<Track>
  {
    if pages == [] then [] else pages[0].items + AllItems(pages[1..])
  }

  function SumItems(pages: seq<Page>): nat
  {
    if pages == [] then 0 else |pages[0].items| + SumItems(pages[1..])
  }

  // ---------------------------------------------------------------------------
  // Track table: a dictionary keyed by track name, in first-insertion order

  /** The names of the table in the order they were first inserted. */
  function TrackKeys(items: seq<Track>): seq<string>
  {
    if items == [] then []
    else
      var keys := TrackKeys(items[..|items| - 1]);
      var n := items[|items| - 1].name;
      if n in keys then keys else keys + [n]
  }

  /** The table itself: later items with a name overwrite earlier ones. */
  function TrackTable(items: seq<Track>): map<string, TrackInfo>
  {
    if items == [] then map[]
    else TrackTable(items[..|items| - 1])[items[|items| - 1].name := InfoOf(items[|items| - 1])]
  }

  /** The key order lists every name of the playlist exactly once and matches the table's keys. */
  lemma {:induction false} TrackKeysShape(items: seq<Track>)
    ensures Distinct(TrackKeys(items))
    ensures forall n :: n in TrackKeys(items) <==> n in TrackTable(items)
    ensures forall n :: n in TrackTable(items) <==> exists k :: 0 <= k < |items| && items[k].name == n
  {
    if items != [] {
      var init := items[..|items| - 1];
      TrackKeysShape(init);
      forall n
        ensures n in TrackTable(items) <==> exists k :: 0 <= k < |items| && items[k].name == n
      {
        if n in TrackTable(init) {
          var k :| 0 <= k < |init| && init[k].name == n;
          assert items[k].name == n;
        }
        if exists k :: 0 <= k < |items| && items[k].name == n {
          var k :| 0 <= k < |items| && items[k].name == n;
          if k < |init| {
            assert init[k].name == n;
          }
        }
      }
    }
  }

  /** Each name maps to the entry of the LAST item carrying that name. */
  lemma {:induction false} TrackTableLastWins(items: seq<Track>, k: nat)
    requires k < |items|
    requires forall j :: k < j < |items| ==> items[j].name != items[k].name
    ensures items[k].name in TrackTable(items)
    ensures TrackTable(items)[items[k].name] == InfoOf(items[k])
  {
    if k < |items| - 1 {
      var init := items[..|items| - 1];
      TrackTableLastWins(init, k);
    }
  }

  /** The table has at most as many entries as the playlist has items. */
  lemma {:induction false} TrackKeysLength(items: seq<Track>)
    ensures |TrackKeys(items)| <= |items|
  {
    if items != [] {
      TrackKeysLength(items[..|items| - 1]);
    }
  }

  // ---------------------------------------------------------------------------
  // Parallel columns read off the table, one row per key

  datatype Columns = Columns(
    tracks: seq<string>,
    artists: seq<string>,
    popularities: seq<int>,
    durations: seq<int>,
    albums: seq<string>,
    releaseDates: seq<string>)

  /** Every column has one entry per key, and row `k` of each column describes key `k`. */
  function BuildColumns(keys: seq<string>, table: map<string, TrackInfo>): (c: Columns)
    requires forall k :: 0 <= k < |keys| ==> keys[k] in table
    ensures |c.tracks| == |c.artists| == |c.popularities| == |c.durations| == |keys|
    ensures |c.albums| == |c.releaseDates| == |keys|
    ensures forall k :: 0 <= k < |keys| ==>
      && c.tracks[k] == keys[k]
      && c.artists[k] == ArtistLabel(table[keys[k]])
      && c.popularities[k] == table[keys[k]].popularity
      && c.durations[k] == table[keys[k]].duration
      && c.albums[k] == table[keys[k]].album
      && c.releaseDates[k] == table[keys[k]].releaseDate
  {
    Columns(
      keys,
      seq(|keys|, k requires 0 <= k < |keys| => ArtistLabel(table[keys[k]])),
      seq(|keys|, k requires 0 <= k < |keys| => table[keys[k]].popularity),
      seq(|keys|, k requires 0 <= k < |keys| => table[keys[k]].duration),
      seq(|keys|, k requires 0 <= k < |keys| => table[keys[k]].album),
      seq(|keys|, k requires 0 <= k < |keys| => table[keys[k]].releaseDate))
  }

  /** The columns built from a playlist: one row per distinct name, the last duplicate's data. */
  function PlaylistColumns(items: seq<Track>): Columns
  {
    TrackKeysShape(items);
    BuildColumns(TrackKeys(items), TrackTable(items))
  }

  /**
   * Row `r` of the columns is the item with that name that comes last in the playlist;
   * no two rows share a name.
   */
  lemma PlaylistColumnsRow(items: seq<Track>, r: nat)
    requires r < |PlaylistColumns(items).tracks|
    ensures Distinct(PlaylistColumns(items).tracks)
    ensures exists k :: (0 <= k < |items|
      && items[k].name == PlaylistColumns(items).tracks[r]
      && PlaylistColumns(items).popularities[r] == items[k].popularity
      && PlaylistColumns(items).durations[r] == items[k].durationMs
      && (forall j :: k < j < |items| ==> items[j].name != items[k].name))
  {
    TrackKeysShape(items);
    var c := PlaylistColumns(items);
    var n := c.tracks[r];
    assert n in TrackTable(items);
    var k :| 0 <= k < |items| && items[k].name == n;
    while exists j :: k < j < |items| && items[j].name == n
      invariant 0 <= k < |items| && items[k].name == n
      decreases |items| - k
    {
      var k' :| k < k' < |items| && items[k'].name == n;
      k := k';
    }
    TrackTableLastWins(items, k);
  }

  /** Total playing time of the table (`sum(durations)`). */
  function CombinedDuration(items: seq<Track>): int
  {
    Sum(PlaylistColumns(items).durations)
  }
}

/**
 * Choosing the seed tracks for a recommendation request.
 */
module Seeds {
  import opened Basics
  import opened Catalog

  /** At most this many tracks seed one recommendation request. */
  const MaxSeeds: int := 5

  /** The uris of the items of the first page of the playlist, in order. */
  function TrackUris(items: seq<Track>): (uris: seq<string>)
    ensures |uris| == |items|
    ensures forall k :: 0 <= k < |items| ==> uris[k] == items[k].uri
  {
    if items == [] then [] else TrackUris(items[..|items| - 1]) + [items[|items| - 1].uri]
  }

  /**
   * The seeds sent with a recommendation request. A request is made exactly when there is a
   * uri; it carries `min(5, n)` seeds, between one and five, taken from the front in order.
   */
  function SelectSeeds(uris: seq<string>): (r: Option<seq<string>>)
    ensures r.None? <==> uris == []
    ensures r.Some? ==>
      && 1 <= |r.value| <= MaxSeeds
      && |r.value| == Min(MaxSeeds, |uris|)
      && r.value <= uris
      && (|uris| <= MaxSeeds ==> r.value == uris)
  {
    if uris == [] then None else Some(uris[..Min(MaxSeeds, |uris|)])
  }

  /** The uris `get_track_uris` reads: those of the first page of the playlist's items only. */
  function FirstPageUris(pages: seq<Page>): seq<string>
  {
    if pages == [] then [] else TrackUris(pages[0].items)
  }

  /** Seed `k` is the uri of the `k`-th item of the first page, whatever the later pages hold. */
  lemma FirstPageSeeds(pages: seq<Page>, k: nat)
    requires pages != [] && k < Min(MaxSeeds, |pages[0].items|)
    ensures SelectSeeds(FirstPageUris(pages)).Some?
    ensures SelectSeeds(FirstPageUris(pages)).value[k] == pages[0].items[k].uri
  {
  }

  /** No recommendation request is made exactly when the first page holds no items. */
  lemma NoSeedsIffFirstPageEmpty(pages: seq<Page>)
    ensures SelectSeeds(FirstPageUris(pages)).None? <==> pages == [] || pages[0].items == []
  {
  }
}

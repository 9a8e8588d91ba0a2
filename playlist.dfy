/**
 * The playlist object: it drains the playlist's pages, builds the track table, fetches audio
 * features in batches, rates moods and splits genre credit, each step filling its own
 * dictionary field in a loop. Service calls are parameters: `fetch` answers audio-feature
 * requests and `lookup` answers artist requests.
 */
module PlaylistModel {
  import opened Basics
  import opened Catalog
  import opened Mood
  import opened AudioJoin
  import opened Genres

  /** The ids of the artists credited on a sequence of credits. */
  function CreditIds(artists: seq<Artist>): set<string>
  {
    if artists == [] then {} else CreditIds(artists[..|artists| - 1]) + {artists[|artists| - 1].id}
  }

  /** The ids of every artist credited anywhere on the playlist. */
  function PlaylistArtistIds(items: seq<Track>): set<string>
  {
    if items == [] then {} else PlaylistArtistIds(items[..|items| - 1]) + CreditIds(items[|items| - 1].artists)
  }

  /** The mood ratings: every track with features, rated from its own features. */
  function Ratings(features: map<string, AudioProfile>): map<string, Mood>
  {
    map n | n in features :: DetermineMood(features[n])
  }

  /**
   * The artist cache holds exactly what the service answered, and the log of lookups names
   * every cached id exactly once: each id was looked up once and never overwritten.
   */
  ghost predicate CacheFaithful(cache: map<string, ArtistInfo>, lookups: seq<string>,
                                lookup: string -> ArtistInfo)
  {
    && (forall id :: id in cache ==> cache[id] == lookup(id))
    && Distinct(lookups)
    && (forall id :: id in lookups <==> id in cache)
  }

  /** Looking up an id that is not cached and caching the answer keeps the cache faithful. */
  lemma LookupKeepsCache(cache: map<string, ArtistInfo>, lookups: seq<string>,
                         lookup: string -> ArtistInfo, id: string)
    requires CacheFaithful(cache, lookups, lookup) && id !in cache
    ensures CacheFaithful(cache[id := lookup(id)], lookups + [id], lookup)
  {
  }

  /**
   * The state of the artist loop after the credits `done`: the cache, still faithful, has
   * gained exactly their ids, the lookup log has only grown, and `labels` are their labels.
   */
  ghost predicate ArtistsSeen(cache0: map<string, ArtistInfo>, log0: seq<string>,
                              cache: map<string, ArtistInfo>, log: seq<string>,
                              done: seq<Artist>, labels: set<Label>, lookup: string -> ArtistInfo)
  {
    && CacheFaithful(cache, log, lookup)
    && cache.Keys == cache0.Keys + CreditIds(done)
    && log0 <= log
    && labels == ArtistsLabels(done, lookup)
  }

  /** Handling one more credit (lookup on a cache miss, then its tags) keeps the loop state. */
  lemma ArtistSeenStep(cache0: map<string, ArtistInfo>, log0: seq<string>,
                       cache: map<string, ArtistInfo>, log: seq<string>,
                       done: seq<Artist>, x: Artist, labels: set<Label>,
                       lookup: string -> ArtistInfo,
                       cache': map<string, ArtistInfo>, log': seq<string>, labels': set<Label>)
    requires ArtistsSeen(cache0, log0, cache, log, done, labels, lookup)
    requires cache' == if x.id in cache then cache else cache[x.id := lookup(x.id)]
    requires log' == if x.id in cache then log else log + [x.id]
    requires x.id in cache' && labels' == labels + TagLabels(cache'[x.id].genres)
    ensures ArtistsSeen(cache0, log0, cache', log', done + [x], labels', lookup)
  {
    ArtistStep(done, x, lookup);
    if x.id !in cache {
      LookupKeepsCache(cache, log, lookup, x.id);
    }
  }

  /** One more artist credit adds its id and the labels of its tags. */
  lemma ArtistStep(done: seq<Artist>, x: Artist, lookup: string -> ArtistInfo)
    ensures CreditIds(done + [x]) == CreditIds(done) + {x.id}
    ensures ArtistsLabels(done + [x], lookup)
            == ArtistsLabels(done, lookup) + TagLabels(lookup(x.id).genres)
  {
    assert (done + [x])[..|done|] == done;
  }

  /** The count dictionary over the ratings of the names in `done`: the moods seen and how often. */
  ghost predicate MoodCounts(counts: map<Mood, nat>, ratings: map<string, Mood>, done: set<string>)
  {
    && done <= ratings.Keys
    && (forall m :: m in counts <==> RatedAs(ratings, done, m) != {})
    && (forall m :: m in counts ==> counts[m] == |RatedAs(ratings, done, m)|)
  }

  /** Counting one more rated name raises the count of its mood by one, starting from one. */
  lemma CountStep(counts: map<Mood, nat>, counts': map<Mood, nat>, ratings: map<string, Mood>,
                  done: set<string>, n: string)
    requires MoodCounts(counts, ratings, done) && n in ratings && n !in done
    requires var m := ratings[n];
      counts' == counts[m := if m in counts then counts[m] + 1 else 1]
    ensures MoodCounts(counts', ratings, done + {n})
  {
    forall m
      ensures |RatedAs(ratings, done + {n}, m)|
              == |RatedAs(ratings, done, m)| + (if ratings[n] == m then 1 else 0)
    {
      RatedAsAdd(ratings, done, n, m);
    }
    assert n in RatedAs(ratings, done + {n}, ratings[n]);
  }

  /** Once every rated name is counted, the counts scaled by the total are the mood view. */
  lemma CountsGiveMoodPercentages(counts: map<Mood, nat>, ratings: map<string, Mood>)
    requires MoodCounts(counts, ratings, ratings.Keys)
    ensures forall m :: m in counts ==> |ratings| > 0
    ensures (map m | m in counts :: (counts[m] as real / |ratings| as real) * 100.0)
            == MoodPercentages(ratings)
  {
    forall m | m in counts
      ensures |ratings| > 0
    {
      var n :| n in RatedAs(ratings, ratings.Keys, m);
      assert n in ratings;
    }
    var scaled := map m | m in counts :: (counts[m] as real / |ratings| as real) * 100.0;
    var view := MoodPercentages(ratings);
    forall m ensures m in scaled <==> m in view {
      EveryMoodListed(m);
    }
    assert scaled.Keys == view.Keys;
    forall m | m in scaled ensures scaled[m] == view[m] {
      assert counts[m] == MoodCount(ratings, m);
    }
  }

  lemma EveryMoodListed(m: Mood)
    ensures m in AllMoods
  {
    match m
    case Happy => case Sad => case Energetic => case Chill => case Neutral =>
  }

  /** Add every label the raw tags reach to `labels`. */
  method AddTags(labels: set<Label>, tags: seq<string>) returns (r: set<Label>)
    ensures r == labels + TagLabels(tags)
  {
    r := labels;
    var j := 0;
    while j < |tags|
      invariant 0 <= j <= |tags|
      invariant r == labels + TagLabels(tags[..j])
    {
      assert tags[..j + 1][..j] == tags[..j];
      r := r + {Canonical(tags[j])};
      j := j + 1;
    }
    assert tags[..j] == tags;
  }

  /**
   * Credit one track: each of its labels gets an equal share of one unit (none when the
   * track has no label), added to what the label already holds.
   */
  method AddCredit(count: map<Label, real>, labels: set<Label>) returns (r: map<Label, real>)
    ensures forall g :: g in r <==> g in count || g in labels
    ensures forall g :: g in r ==>
      r[g] == (if g in count then count[g] else 0.0) + Weight(labels, g)
  {
    var share := if labels != {} then 1.0 / |labels| as real else 0.0;
    r := count;
    var rest := labels;
    while rest != {}
      invariant rest <= labels
      invariant forall g :: g in r <==> g in count || g in labels - rest
      invariant forall g :: g in r ==>
        r[g] == (if g in count then count[g] else 0.0) + (if g in labels - rest then share else 0.0)
      decreases |rest|
    {
      var g :| g in rest;
      r := r[g := (if g in r then r[g] else 0.0) + share];
      rest := rest - {g};
    }
  }

  /** The labels seen so far and the credit they hold, as the count dictionary records them. */
  ghost predicate CountsOf(count: map<Label, real>, done: seq<Track>, lookup: string -> ArtistInfo)
  {
    && (forall g :: g in count <==> g in Appeared(done, lookup))
    && (forall g :: g in count ==> count[g] == Credit(done, lookup, g))
  }

  /** Crediting one more track's label set extends the counts by that track. */
  lemma CreditStep(count: map<Label, real>, count': map<Label, real>, done: seq<Track>, t: Track,
                   lookup: string -> ArtistInfo)
    requires CountsOf(count, done, lookup)
    requires forall g :: g in count' <==> g in count || g in TrackLabels(t, lookup)
    requires forall g :: g in count' ==>
      count'[g] == (if g in count then count[g] else 0.0) + Weight(TrackLabels(t, lookup), g)
    ensures CountsOf(count', done + [t], lookup)
  {
    assert (done + [t])[..|done|] == done;
    forall g | g !in count {
      CreditPositiveIffAppeared(done, lookup, g);
    }
  }

  lemma ArtistIdsStep(done: seq<Track>, t: Track)
    ensures PlaylistArtistIds(done + [t]) == PlaylistArtistIds(done) + CreditIds(t.artists)
  {
    assert (done + [t])[..|done|] == done;
  }

  /** Once every item is credited, the counts scaled by the item count are the genre view. */
  lemma CountsGivePercentages(count: map<Label, real>, items: seq<Track>, lookup: string -> ArtistInfo)
    requires CountsOf(count, items, lookup)
    ensures forall g :: g in count ==> |items| > 0
    ensures (map g | g in count :: (count[g] / |items| as real) * 100.0)
            == GenrePercentages(items, lookup)
  {
  }

  /** One request of the feature loop keeps both of its invariants. */
  lemma FeatureLoopStep(m: map<string, AudioProfile>, m': map<string, AudioProfile>,
                        tracks: seq<Track>, ids: seq<string>, fetch: FeatureFetch, i: nat,
                        target: map<string, AudioProfile>,
                        sent: seq<seq<string>>, sent': seq<seq<string>>)
    requires i < |ids|
    requires JoinFrom(m, tracks, ids, fetch, i) == target
    requires sent + Batches(ids, i) == Batches(ids, 0)
    requires m' == AfterBatch(m, tracks, ids, fetch, i)
    requires sent' == sent + [Slice(ids, i, i + BatchSize)]
    ensures JoinFrom(m', tracks, ids, fetch, i + BatchSize) == target
    ensures sent' + Batches(ids, i + BatchSize) == Batches(ids, 0)
  {
    JoinFromStep(m, tracks, ids, fetch, i);
    assert Batches(ids, i) == [Slice(ids, i, i + BatchSize)] + Batches(ids, i + BatchSize);
    assert sent' + Batches(ids, i + BatchSize)
           == sent + ([Slice(ids, i, i + BatchSize)] + Batches(ids, i + BatchSize));
  }

  class Playlist {
    /** Every playlist item, across all pages, in playlist order. */
    var broadTrackInfo: seq<Track>
    /** The track table, keyed by track name. */
    var trackInfo: map<string, TrackInfo>
    /** The table's names in first-insertion order (the dictionary's iteration order). */
    var trackNames: seq<string>
    /** Audio features stored by track name. */
    var audioFeatures: map<string, AudioProfile>
    /** Mood ratings by track name. */
    var moodRatings: map<string, Mood>
    /** The artist cache: what the artist service answered, by artist id. */
    var genres: map<string, ArtistInfo>
    /** Genre percentages by label. */
    var genrePercentages: map<Label, real>
    /** The audio-feature requests made, in order. */
    ghost var featureRequests: seq<seq<string>>
    /** The artist ids looked up through the artist service, in order. */
    ghost var artistLookups: seq<string>

    /** The track table and its key order are those of the playlist items. */
    ghost predicate Tabled()
      reads this`broadTrackInfo, this`trackInfo, this`trackNames
    {
      trackInfo == TrackTable(broadTrackInfo) && trackNames == TrackKeys(broadTrackInfo)
    }

    /** The audio features are the join of the answers, and the requests were the batches. */
    ghost predicate Featured(fetch: FeatureFetch)
      reads this`broadTrackInfo, this`audioFeatures, this`featureRequests
    {
      && audioFeatures == JoinAsWritten(broadTrackInfo, fetch)
      && featureRequests == Batches(ValidIds(broadTrackInfo), 0)
    }

    /** Every track with features is rated by them. */
    ghost predicate Rated()
      reads this`audioFeatures, this`moodRatings
    {
      moodRatings == Ratings(audioFeatures)
    }

    /** The genre view and the artist cache are those of the playlist items. */
    ghost predicate GenresKnown(lookup: string -> ArtistInfo)
      reads this`broadTrackInfo, this`genres, this`genrePercentages, this`artistLookups
    {
      && genrePercentages == GenrePercentages(broadTrackInfo, lookup)
      && genres.Keys == PlaylistArtistIds(broadTrackInfo)
      && CacheFaithful(genres, artistLookups, lookup)
    }

    /**
     * Every derived field is what its analysis step computes from the playlist items: the
     * track table, the joined audio features with the requests made, the mood ratings, and
     * the genre view with the artist cache.
     */
    ghost predicate Analysed(fetch: FeatureFetch, lookup: string -> ArtistInfo)
      reads this
    {
      Tabled() && Featured(fetch) && Rated() && GenresKnown(lookup)
    }

    /**
     * Build the playlist from its pages and run the analysis steps in the order the object
     * does on creation.
     */
    constructor (pages: seq<Page>, fetch: FeatureFetch, lookup: string -> ArtistInfo)
      ensures broadTrackInfo == Drained(pages)
      ensures Analysed(fetch, lookup)
    {
      var drained := DrainPages(pages);
      broadTrackInfo := drained;
      trackInfo := map[];
      trackNames := [];
      audioFeatures := map[];
      moodRatings := map[];
      genres := map[];
      genrePercentages := map[];
      featureRequests := [];
      artistLookups := [];
      new;
      RunStages(fetch, lookup);
    }

    /** The analysis steps, in the order the object runs them on creation. */
    method RunStages(fetch: FeatureFetch, lookup: string -> ArtistInfo)
      modifies this`trackInfo, this`trackNames, this`audioFeatures, this`featureRequests
      modifies this`moodRatings, this`genres, this`genrePercentages, this`artistLookups
      ensures Analysed(fetch, lookup)
    {
      SetTrackInfo();
      assert Tabled();
      FetchAudioFeatures(fetch);
      assert Featured(fetch);
      SetMoodRatings();
      assert Rated();
      FetchGenres(lookup);
      assert GenresKnown(lookup);
    }

    /**
     * Drain pagination: take each page's items, and request the next page only while the
     * current one says there is one (page `k + 1` is what the service returns after page `k`).
     */
    static method DrainPages(pages: seq<Page>) returns (items: seq<Track>)
      ensures items == Drained(pages)
    {
      items := [];
      var k := 0;
      while k < |pages|
        invariant 0 <= k <= |pages|
        invariant items + Drained(pages[k..]) == Drained(pages)
        decreases |pages| - k
      {
        items := items + pages[k].items;
        if pages[k].hasNext {
          assert pages[k..][1..] == pages[k + 1..];
          k := k + 1;
        } else {
          return;
        }
      }
    }

    /** Fill the track table from the playlist items: later duplicates of a name overwrite. */
    method SetTrackInfo()
      modifies this`trackInfo, this`trackNames
      ensures trackInfo == TrackTable(broadTrackInfo)
      ensures trackNames == TrackKeys(broadTrackInfo)
    {
      trackInfo := map[];
      trackNames := [];
      var i := 0;
      while i < |broadTrackInfo|
        invariant 0 <= i <= |broadTrackInfo|
        invariant trackInfo == TrackTable(broadTrackInfo[..i])
        invariant trackNames == TrackKeys(broadTrackInfo[..i])
      {
        var t := broadTrackInfo[i];
        assert broadTrackInfo[..i + 1][..i] == broadTrackInfo[..i];
        TrackKeysShape(broadTrackInfo[..i]);
        if t.name !in trackInfo {
          trackNames := trackNames + [t.name];
        }
        trackInfo := trackInfo[t.name := InfoOf(t)];
        i := i + 1;
      }
      assert broadTrackInfo[..i] == broadTrackInfo;
    }

    /**
     * Fetch audio features: the present ids are requested 50 at a time, and each batch's
     * answers are zipped with the same positions of the whole, unfiltered playlist, storing
     * every present profile under that track's name.
     */
    method FetchAudioFeatures(fetch: FeatureFetch)
      modifies this`audioFeatures, this`featureRequests
      ensures audioFeatures == JoinAsWritten(broadTrackInfo, fetch)
      ensures featureRequests == Batches(ValidIds(broadTrackInfo), 0)
    {
      var ids := ValidIds(broadTrackInfo);
      var tracks := broadTrackInfo;
      ghost var target := JoinAsWritten(broadTrackInfo, fetch);
      audioFeatures := map[];
      featureRequests := [];
      var i := 0;
      while i < |ids|
        invariant JoinFrom(audioFeatures, tracks, ids, fetch, i) == target
        invariant featureRequests + Batches(ids, i) == Batches(ids, 0)
        decreases |ids| - i
      {
        ghost var before := audioFeatures;
        ghost var sent := featureRequests;
        FetchBatch(tracks, ids, i, fetch);
        FeatureLoopStep(before, audioFeatures, tracks, ids, fetch, i, target, sent, featureRequests);
        i := i + BatchSize;
      }
      assert JoinFrom(audioFeatures, tracks, ids, fetch, i) == audioFeatures;
      assert Batches(ids, i) == [];
    }

    /**
     * Request the batch of ids starting at position `i` and store its answers against the
     * tracks at the same positions of `tracks`.
     */
    method FetchBatch(tracks: seq<Track>, ids: seq<string>, i: nat, fetch: FeatureFetch)
      modifies this`audioFeatures, this`featureRequests
      ensures audioFeatures == AfterBatch(old(audioFeatures), tracks, ids, fetch, i)
      ensures featureRequests == old(featureRequests) + [Slice(ids, i, i + BatchSize)]
    {
      var batch := Slice(ids, i, i + BatchSize);
      var answers := fetch(batch);
      featureRequests := featureRequests + [batch];
      StoreBatch(Slice(tracks, i, i + BatchSize), answers);
    }

    /** Zip one batch's tracks with its answers, storing each present profile by name. */
    method StoreBatch(tracks: seq<Track>, answers: seq<Option<AudioProfile>>)
      modifies this`audioFeatures
      ensures audioFeatures == StoreFrom(old(audioFeatures), tracks, answers, 0)
    {
      var k := 0;
      while k < |tracks| && k < |answers|
        invariant 0 <= k
        invariant StoreFrom(audioFeatures, tracks, answers, k)
                  == StoreFrom(old(audioFeatures), tracks, answers, 0)
        decreases |tracks| - k
      {
        if answers[k].Some? {
          audioFeatures := audioFeatures[tracks[k].name := answers[k].value];
        }
        k := k + 1;
      }
    }

    /** Rate every track that has audio features. */
    method SetMoodRatings()
      modifies this`moodRatings
      ensures moodRatings == Ratings(audioFeatures)
    {
      moodRatings := map[];
      var rest := audioFeatures.Keys;
      while rest != {}
        invariant rest <= audioFeatures.Keys
        invariant moodRatings.Keys == audioFeatures.Keys - rest
        invariant forall n :: n in moodRatings ==> moodRatings[n] == DetermineMood(audioFeatures[n])
        decreases |rest|
      {
        var n :| n in rest;
        moodRatings := moodRatings[n := DetermineMood(audioFeatures[n])];
        rest := rest - {n};
      }
    }

    /**
     * Count the ratings per mood, then give each mood that occurs its share of the rated
     * tracks in percent.
     */
    method CalculateMoodPercentages() returns (p: map<Mood, real>)
      ensures p == MoodPercentages(moodRatings)
    {
      var counts: map<Mood, nat> := map[];
      var rest := moodRatings.Keys;
      while rest != {}
        invariant rest <= moodRatings.Keys
        invariant MoodCounts(counts, moodRatings, moodRatings.Keys - rest)
        decreases |rest|
      {
        var n :| n in rest;
        var mood := moodRatings[n];
        ghost var before := counts;
        if mood in counts {
          counts := counts[mood := counts[mood] + 1];
        } else {
          counts := counts[mood := 1];
        }
        CountStep(before, counts, moodRatings, moodRatings.Keys - rest, n);
        assert moodRatings.Keys - (rest - {n}) == (moodRatings.Keys - rest) + {n};
        rest := rest - {n};
      }
      assert moodRatings.Keys - rest == moodRatings.Keys;
      CountsGiveMoodPercentages(counts, moodRatings);
      p := map m | m in counts :: (counts[m] as real / |moodRatings| as real) * 100.0;
    }

    /**
     * Split genre credit: every track's artists are looked up (through the cache), their tags
     * mapped to labels, and the track's label set shares one unit of credit; each label's
     * total is then given as a percentage of the number of playlist items.
     */
    method FetchGenres(lookup: string -> ArtistInfo)
      modifies this`genres, this`genrePercentages, this`artistLookups
      ensures genrePercentages == GenrePercentages(broadTrackInfo, lookup)
      ensures genres.Keys == PlaylistArtistIds(broadTrackInfo)
      ensures CacheFaithful(genres, artistLookups, lookup)
    {
      var genreCount: map<Label, real> := map[];
      var total := |broadTrackInfo|;
      genres := map[];
      artistLookups := [];
      var i := 0;
      while i < |broadTrackInfo|
        invariant 0 <= i <= |broadTrackInfo|
        invariant genres.Keys == PlaylistArtistIds(broadTrackInfo[..i])
        invariant CacheFaithful(genres, artistLookups, lookup)
        invariant CountsOf(genreCount, broadTrackInfo[..i], lookup)
      {
        var t := broadTrackInfo[i];
        assert broadTrackInfo[..i + 1] == broadTrackInfo[..i] + [t];
        ArtistIdsStep(broadTrackInfo[..i], t);
        var artistGenres := TrackGenres(t.artists, lookup);
        var count' := AddCredit(genreCount, artistGenres);
        CreditStep(genreCount, count', broadTrackInfo[..i], t, lookup);
        genreCount := count';
        i := i + 1;
      }
      assert broadTrackInfo[..i] == broadTrackInfo;
      CountsGivePercentages(genreCount, broadTrackInfo, lookup);
      genrePercentages := map g | g in genreCount :: (genreCount[g] / total as real) * 100.0;
    }

    /**
     * The labels of one track's artists. An artist missing from the cache is looked up and
     * cached; a cached artist is never looked up again or overwritten.
     */
    method TrackGenres(artists: seq<Artist>, lookup: string -> ArtistInfo) returns (labels: set<Label>)
      modifies this`genres, this`artistLookups
      requires CacheFaithful(genres, artistLookups, lookup)
      ensures CacheFaithful(genres, artistLookups, lookup)
      ensures genres.Keys == old(genres.Keys) + CreditIds(artists)
      ensures forall id :: id in old(genres) ==> genres[id] == old(genres)[id]
      ensures old(artistLookups) <= artistLookups
      ensures labels == ArtistsLabels(artists, lookup)
    {
      labels := {};
      var a := 0;
      while a < |artists|
        invariant 0 <= a <= |artists|
        invariant ArtistsSeen(old(genres), old(artistLookups), genres, artistLookups,
                              artists[..a], labels, lookup)
      {
        ghost var cache, log, seen := genres, artistLookups, labels;
        var id := artists[a].id;
        if id !in genres {
          genres := genres[id := lookup(id)];
          artistLookups := artistLookups + [id];
        }
        labels := AddTags(labels, genres[id].genres);
        ArtistSeenStep(old(genres), old(artistLookups), cache, log, artists[..a], artists[a],
                       seen, lookup, genres, artistLookups, labels);
        assert artists[..a + 1] == artists[..a] + [artists[a]];
        a := a + 1;
      }
      assert artists[..a] == artists;
    }
  }
}

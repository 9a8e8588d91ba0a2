# Vibify playlist analyser, modelled in Dafny

This project models the analytics core of the Vibify Spotify playlist analyser
(`VibifyPublic.py`). That core is:

- the `Playlist` object, which reads every page of a playlist's items;
- the track table it builds, with its parallel columns;
- audio features fetched in batches of 50 ids and joined back onto tracks;
- one mood per track, and mood percentages;
- artist genres classified onto fifteen labels, each track's unit of credit shared among its labels, and genre percentages;
- the popularity buckets and duration formats of the data frame;
- the recommendation seeds;
- the top-10 artist and top-10 song rankings.

Calls to the Spotify service become parameters of the model:

- `pages` is the sequence of result pages;
- `fetch` is the audio-features endpoint, one optional profile per id sent;
- `lookup` is the artist endpoint.

Modules:

- `Basics`: option and result types, `Min`, `Max`, `Sum`.
- `Strings`: substring test; `", "` join and split.
- `Catalog`: track payloads, page draining, the name-keyed track table, its columns.
- `Mood`: mood classification and mood percentages.
- `Popularity`: popularity buckets and duration formats.
- `Genres`: genre classification and genre credit.
- `AudioJoin`: batching ids and joining the answers.
- `Seeds`: recommendation seeds.
- `Ranking`: artist scores, normalisation, the top ten.
- `PlaylistModel`: the `Playlist` class. Its fields are the ones the analysis stages fill in place: the drained items, the track table, the audio features, the mood ratings, the artist cache and the genre percentages. Its methods are those stages, each with its loop. Ghost logs record the requests sent to the two services. The parallel columns and the combined duration are functions in `Catalog` and `Popularity`. The seed choice is a function in `Seeds`. The data frame and the stored recommendations are left out.

The parts the source writes as loops over mutable state are methods with loop
invariants:

- `Playlist` construction and its stages;
- `AccumulateArtistPopularity`.

Each is proved equal to a specification function, and the properties are proved about
that function.

## Model

| member | source | states |
|---|---|---|
| Catalog.DrainedStopsAtLastPage | VibifyPublic.py:35-40 | pages after the first page without a continuation are never read |
| Catalog.DrainedAllPages | VibifyPublic.py:35-40 | when every page but the last has a continuation, the drain is exactly the concatenation of every page's items, in page order |
| PlaylistModel.Playlist.DrainPages | VibifyPublic.py:33-40 | the paging loop collects exactly the items of the pages up to and including the first page without a continuation, in order |
| Catalog.TrackKeysShape | VibifyPublic.py:107-116 | the listed keys are distinct, are exactly the table's keys, and are exactly the names of the playlist's items |
| Catalog.TrackTableLastWins | VibifyPublic.py:107-116 | for tracks sharing a name, the entry holds the info of the last one |
| Catalog.TrackKeysLength | VibifyPublic.py:107-116 | the table never has more entries than the playlist has items |
| PlaylistModel.Playlist.SetTrackInfo | VibifyPublic.py:107-116 | the loop builds the name-keyed table, in which the last item of each name wins, and lists its names once each in first-insertion order |
| Catalog.ArtistNames | VibifyPublic.py:111 | one artist name per credited artist, in credit order |
| Catalog.PlaylistColumnsRow | VibifyPublic.py:44-51 | every row names a distinct track, and carries the popularity and duration of the last playlist item with that name |
| Strings.ContainsIff | VibifyPublic.py:239-266 | the substring test holds exactly when the pattern occurs at some position |
| Strings.SplitJoin | VibifyPublic.py:498 | splitting the joined artist text gives back the names when no name contains the separator |
| Strings.SplitJoinBreaksSepName | VibifyPublic.py:498 | a single name containing ", " comes back as two names |
| Mood.DetermineMood | VibifyPublic.py:302-313 | for each mood, the exact conditions on valence, energy and tempo under which it is chosen |
| Mood.HighEnergyIsHappyOrEnergetic | VibifyPublic.py:304-309 | energy above 0.7 always gives Happy or Energetic |
| Mood.CountsPartition | VibifyPublic.py:321-325 | the per-mood counts add up to the number of rated tracks |
| Mood.MoodPercentagesSum | VibifyPublic.py:315-329 | with at least one rated track, the five mood percentages add up to 100 |
| Mood.MoodPercentagesBounded | VibifyPublic.py:328 | each reported mood percentage is above 0 and at most 100 |
| PlaylistModel.Playlist.SetMoodRatings | VibifyPublic.py:293-299 | every track with features gets exactly the mood its features determine, and no other track is rated |
| PlaylistModel.Playlist.CalculateMoodPercentages | VibifyPublic.py:315-329 | the counting loop returns the mood percentages of the current ratings, a mood being reported exactly when some track has it |
| PlaylistModel.CountsGiveMoodPercentages | VibifyPublic.py:327-328 | complete per-mood counts give exactly the percentage map, and never divide by zero |
| Popularity.BucketOf | VibifyPublic.py:161-162 | the bucket intervals (-1,30], (30,60] and (60,101]; outside them there is no bucket; every popularity from 0 to 100 has one |
| Popularity.BucketTextBoundaries | VibifyPublic.py:161-162 | 0 and 30 show "Hidden Gems (0-30%)", 31 and 60 show "Common (30-60%)", 61 and 100 show "Popular (60-100%)" |
| Popularity.BucketLabelInjective | VibifyPublic.py:162 | distinct ranges show distinct label texts |
| Popularity.BucketOfMonotone | VibifyPublic.py:161-162 | a higher popularity never falls in a lower bucket |
| Popularity.BucketColumn | VibifyPublic.py:161-162 | one bucket per track: row k is the bucket of the k-th popularity, and it is defined for every popularity from 0 to 100 |
| Popularity.FormatDuration | VibifyPublic.py:155-159 | minutes and seconds are the whole minutes and leftover whole seconds of the duration, with seconds below 60 |
| Popularity.FormatDurationWholeSeconds | VibifyPublic.py:155-159 | two durations format alike exactly when they agree in whole seconds |
| Popularity.FormatTotal | VibifyPublic.py:335-337 | hours and minutes are the whole hours and leftover whole minutes of the total, with minutes below 60 |
| Popularity.TotalLengthNonNegative | VibifyPublic.py:49 | with non-negative durations the table's combined duration, and so its hours, are never negative |
| Popularity.TotalLengthCountsNameOnce | VibifyPublic.py:44-49 | the combined duration is read off the name-keyed table, so two tracks sharing a name count once, with the later one's duration |
| Genres.LabelNameInjective | VibifyPublic.py:238-269 | distinct labels have distinct texts, so the set of label texts the source collects counts as the set of labels |
| Genres.FirstMatchIsEarliest | VibifyPublic.py:238-268 | a priority table maps a tag to the label of the first entry whose pattern the tag contains |
| Genres.FirstMatchNone | VibifyPublic.py:267-268 | a tag containing none of the patterns is labelled Other |
| Genres.CanonicalIsFirstMatch | VibifyPublic.py:238-268 | the classification chain is the first match over the fifteen labels in the source's order |
| Genres.CanonicalPopRap | VibifyPublic.py:243-246 | "pop rap" is labelled Rap, because the chain looks for "rap" before "pop" |
| Genres.CanonicalDeepHouse | VibifyPublic.py:238-268 | "deep house" matches no pattern and is labelled Other |
| Genres.CanonicalSoul | VibifyPublic.py:251-252 | "soul" is labelled Soul |
| Genres.TagLabelsIff | VibifyPublic.py:238-269 | an artist's label set holds exactly the labels of its tags |
| Genres.ArtistsLabelsIff | VibifyPublic.py:226-269 | a track's label set holds exactly the labels reached by some credited artist |
| Genres.ArtistsLabelsRepeat | VibifyPublic.py:226-269 | crediting an artist twice adds no label |
| Genres.TrackCreditIsUnit | VibifyPublic.py:272-274 | a track with labels gives out exactly one unit of credit, and a track without labels gives out none |
| Genres.CreditPositiveIffAppeared | VibifyPublic.py:272-277 | a label's credit is never negative, and is positive exactly when some track reached that label |
| Genres.CoveredAtMostItems | VibifyPublic.py:221-274 | the number of tracks with at least one label is at most the number of items |
| Genres.TotalCreditIsCovered | VibifyPublic.py:272-274 | the credit of all labels adds up to the number of tracks with at least one label |
| Genres.PercentOfLabel | VibifyPublic.py:277 | a label's percentage is its credit divided by the item count, times 100 |
| Genres.GenrePercentagesSum | VibifyPublic.py:221-277 | the genre percentages add up to the covered share of the items, so at most 100, and exactly 100 when every track has a label |
| PlaylistModel.LookupKeepsCache | VibifyPublic.py:229-235 | storing a fresh lookup keeps the artist cache faithful: each entry is the service's answer, and each id is looked up once |
| PlaylistModel.AddTags | VibifyPublic.py:238-269 | the tag loop adds exactly the labels of the tags |
| PlaylistModel.AddCredit | VibifyPublic.py:272-274 | the counter gains every label of the track, each by an equal share of one unit; other counts are unchanged |
| PlaylistModel.CreditStep | VibifyPublic.py:272-274 | adding one track's shares keeps the counter equal to the credit over the tracks processed so far |
| PlaylistModel.CountsGivePercentages | VibifyPublic.py:277 | complete counts give exactly the genre percentage map, and never divide by zero |
| PlaylistModel.Playlist.TrackGenres | VibifyPublic.py:226-269 | the track's label set is that of its artists; the cache gains exactly the artists' ids and keeps its old entries; the lookup log only grows |
| PlaylistModel.Playlist.FetchGenres | VibifyPublic.py:219-277 | the genre percentages are those of the playlist; the cache holds exactly the playlist's artist ids; each artist is looked up once |
| AudioJoin.Slice | VibifyPublic.py:286 | list slicing with clamped ends: the elements from the lower bound up to the upper bound |
| AudioJoin.ValidIdsExact | VibifyPublic.py:281 | every item with a present, non-empty id contributes it, and every id sent comes from such an item |
| AudioJoin.ValidIdsConcat | VibifyPublic.py:281 | a single item contributes its id exactly when the id is present and non-empty, and the ids of two runs of items are the ids of the first followed by those of the second: playlist order, one id per such item |
| AudioJoin.ValidIdsCount | VibifyPublic.py:281 | the number of ids sent equals the number of items that carry one |
| AudioJoin.WithIdsAligned | VibifyPublic.py:281 | the tracks whose ids are sent line up one to one with the ids |
| AudioJoin.BatchesCover | VibifyPublic.py:285-287 | the requests, put back together, are the ids in order; each request holds 1 to 50 ids; there are ceil(n/50) requests |
| AudioJoin.BatchesOf120 | VibifyPublic.py:285-287 | 120 ids go out as requests of 50, 50 and 20 |
| AudioJoin.JoinAsWrittenMisattributes | VibifyPublic.py:289-291 | when a track without an id precedes one with an id, the join as written stores the second track's profile under the first track's name |
| AudioJoin.JoinAsWrittenAttributes | VibifyPublic.py:284-291 | as written, each stored profile is the answer given at the position of a playlist item with that name, filtered or not, and every present answer is stored under the name of the playlist item at its position |
| AudioJoin.JoinCorrectedAttributes | VibifyPublic.py:289-291 | the corrected join stores a name exactly when the service answered for a sent track with that name, and what it stores is the answer for that track's own id |
| AudioJoin.JoinAsWrittenLastWins | VibifyPublic.py:284-291 | among playlist items sharing a name, the join as written keeps the answer zipped with the last of them that has a present answer, as the dictionary assignment overwrites |
| AudioJoin.JoinCorrectedLastWins | VibifyPublic.py:289-291 | among sent tracks sharing a name, the corrected join keeps the answer for the last of them that has a present answer |
| AudioJoin.DuplicateNameKeepsLast | VibifyPublic.py:289-291 | two items named "A" answered p then q: the join keeps q |
| AudioJoin.JoinAsWrittenCorrectWithAllIds | VibifyPublic.py:281-291 | when every track has an id, the join as written and the corrected join agree |
| PlaylistModel.FeatureLoopStep | VibifyPublic.py:285-291 | one request step keeps the features map on course to the full join, and the request log a prefix of the batches |
| PlaylistModel.Playlist.FetchBatch | VibifyPublic.py:286-291 | one request is sent for the next slice of ids, and its answers are zipped with the same slice of the tracks given |
| PlaylistModel.Playlist.StoreBatch | VibifyPublic.py:289-291 | each present answer is stored under the name of the track it is zipped with |
| PlaylistModel.Playlist.FetchAudioFeatures | VibifyPublic.py:279-291 | the features map is the join as written, each batch's answers zipped with the same positions of the unfiltered playlist; the requests sent are exactly the batches of the valid ids |
| PlaylistModel.Playlist.RunStages | VibifyPublic.py:44-68 | after the stages run in the source's order, each derived field holds its stage's result on the playlist items |
| PlaylistModel.Playlist.constructor | VibifyPublic.py:21-68 | the playlist holds every drained item, and every stage field holds the result of its stage on that playlist |
| Seeds.TrackUris | VibifyPublic.py:191 | one uri per item of the first page, in order |
| Seeds.SelectSeeds | VibifyPublic.py:204-206 | no seeds exactly when there are no uris; otherwise the first min(5, n) uris |
| Seeds.FirstPageSeeds | VibifyPublic.py:187-206 | seed k is the uri of the k-th item of the first page of the playlist, whatever later pages hold |
| Seeds.NoSeedsIffFirstPageEmpty | VibifyPublic.py:187-206 | no recommendation request is made exactly when the first page holds no items |
| Ranking.CreditsAsWritten | VibifyPublic.py:497-498 | each entry is credited, with its popularity, to the pieces its artist text splits into on ", "; an entry that lists artists, none containing ", ", is credited to its own list |
| Ranking.AddNamesMeaning | VibifyPublic.py:499-503 | crediting one entry adds its popularity to each name once per occurrence, and creates the names not yet scored |
| Ranking.ScoresMeaning | VibifyPublic.py:497-503 | an artist is scored exactly when some entry names it, and its score is the total popularity over those mentions |
| Ranking.ScoreOrderShape | VibifyPublic.py:497-503 | the score order lists every scored artist exactly once |
| Ranking.ScoresNonNegative | VibifyPublic.py:497-503 | scores are never negative when popularities are not |
| Ranking.TwoTracksAccumulate | VibifyPublic.py:500-503 | an artist on two tracks of popularity 40 and 60 scores 100 |
| Ranking.CreditNames | VibifyPublic.py:499-503 | the inner loop adds one entry's names to the scores, and appends new names to the score order |
| Ranking.AccumulateArtistPopularity | VibifyPublic.py:495-503 | the loop over the track table computes the scores of the split artist texts, as written, and their first-insertion order |
| Ranking.CreditsAgreeWithoutSeparator | VibifyPublic.py:498 | when no artist name contains ", ", splitting the text credits exactly the track's own artists |
| Ranking.SeparatorInNameSplitsArtist | VibifyPublic.py:498 | an artist whose name contains ", " is scored as two artists, where the track's own credits name one |
| Ranking.TylerTheCreatorScoredTwice | VibifyPublic.py:498 | a track credited to "Tyler, The Creator" alone is scored for "Tyler" and for "The Creator" |
| Ranking.IntendedScores | VibifyPublic.py:497-503 | crediting each track's own artists scores exactly the artists some track lists, each with its total popularity |
| Ranking.Normalise | VibifyPublic.py:506-509 | empty input is an error, as is a zero maximum; otherwise each value becomes a percentage of the maximum, so with non-negative values every score lies in [0, 100] and some score is 100 |
| Ranking.PercentRowsBounded | VibifyPublic.py:506-509 | once values are scaled against a positive maximum, non-negative values give scores between 0 and 100, and the maximum scores 100 |
| Ranking.SortDescCorrect | VibifyPublic.py:511 | the sort orders scores from highest to lowest, and loses and adds no row |
| Ranking.TopN | VibifyPublic.py:511 | keeps min(n, len) rows, in descending order, taken from the input; any row left out scores no more than the last row kept |
| Ranking.TopArtistsOfTable | VibifyPublic.py:495-513 | there is no maximum exactly when the table is empty (an entry without artists still credits the empty name); otherwise any ranking has 1 to 10 rows, descending, the first at 100, all within 0 to 100 |
| Ranking.TopTracksShape | VibifyPublic.py:526-530 | the empty-collection error exactly when there are no tracks; otherwise any ranking has min(10, n) rows, descending, the first at 100, drawn from the normalised tracks |

## Left out

- Spotify authentication, the client object and every network call. They are the parameters `pages`, `fetch` and `lookup`. Their failures and rate limits are not modelled.
- The playlist's URL parsing (`id_from_url`) and its name, image and description. These are only displayed.
- All Streamlit, plotly, pandas and PIL rendering. The tables they draw are modelled as the sequences they are drawn from.
- The float minute:second strings of the constructor, and the numeric minute column of the data frame. Both are float arithmetic; the integer minute/second format of the data frame is modelled instead.
- The text rendering of durations: `FormatDuration` and `FormatTotal` return the numbers, not the strings.
- `set_df` assembles the data frame from columns that are all modelled; the frame itself is not a separate member.
- Popularity.BucketOf: gives the bucket as a label index; it does not model pandas' categorical type.
- Ranking.TopN: does not fix the order among rows with equal scores, which Python's stable sort and pandas' `nlargest` do fix. Only the descending order and the membership are proved.
- Ranking.TopTracks: a zero maximum or an empty frame gives an error result, where pandas yields NaN or infinite values and an empty chart.
- Ranking.TopArtists: `max` of an empty dict and division by a zero maximum raise in the source. The model returns `Err(EmptyCollection)` and `Err(ZeroMaximum)`.
- A missing or null `track` payload raises in the source. The model's items always carry a track; a missing id is `None`.
- The artist name stored in the genre cache is kept but not read, as in the source.
- The recommendations request and the stored recommendations. Only the choice of seeds is modelled.
- Seed selection follows the code: the uris come from the first page of the playlist's items only, and tracks are not filtered first.
- The `main` entry point, its error handling and the removal of the token cache.
- Floating point: audio features and percentages are exact reals, not IEEE doubles. Rounding in the percentage sums is not modelled.

## Findings

| source | as written | input that shows it | evidently intended | confidence | as-written member | corrected member |
|---|---|---|---|---|---|---|
| VibifyPublic.py:289-291 | the answers for a batch of ids from which id-less tracks were filtered out are zipped with the same positions of the unfiltered playlist | track "A" without an id followed by track "B" with id "b": B's features are stored under "A" | zip the answers with the tracks whose ids were sent | high, not executed | AudioJoin.JoinAsWrittenMisattributes | AudioJoin.JoinCorrectedAttributes |
| VibifyPublic.py:498 | the artist text built with `", ".join` is split again on ", " to credit artists | an artist named "Tyler, The Creator" is scored as "Tyler" and "The Creator" | credit each track's own list of artist names | high, not executed | Ranking.SeparatorInNameSplitsArtist | Ranking.IntendedScores |

The as-written members model the code at those lines, and each comes with a lemma that
exhibits the discrepancy. The rest of the model follows the code as written:

- `Playlist.FetchAudioFeatures` computes `JoinAsWritten`;
- `AccumulateArtistPopularity` and `TopArtistsOfEntries` credit the split artist text.

The corrected definitions (`JoinCorrected`, `CreditsIntended`) are proved correct alongside, and
where the defect cannot arise the two versions agree (`JoinAsWrittenCorrectWithAllIds`,
`CreditsAgreeWithoutSeparator`).

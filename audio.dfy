/**
 * Fetching audio features in batches of at most 50 ids and joining the answers back onto
 * tracks by name.
 */
module AudioJoin {
  import opened Basics
  import opened Catalog
  import opened Mood

  /** The service accepts at most this many ids per request. */
  const BatchSize: int := 50

  /** The service call: one optional profile per requested id, in request order. */
  type FeatureFetch = seq<string> -> seq<Option<AudioProfile>>

  /** Python slicing `s[lo:hi]` for non-negative bounds: both ends are clamped to the length. */
  function Slice<T>(s: seq<T>, lo: nat, hi: nat): (r: seq<T>)
    ensures |r| <= |s|
    ensures lo <= hi ==> |r| == Min(hi, |s|) - Min(lo, |s|)
    ensures forall k :: 0 <= k < |r| ==> lo + k < |s| && r[k] == s[lo + k]
  {
    var a := Min(lo, |s|);
    var b := Min(hi, |s|);
    if a <= b then s[a..b] else []
  }

  /** The positions of the items that carry a present, non-empty id. */
  function IdPositions(items: seq<Track>): set<nat>
  {
    set k: nat | k < |items| && HasId(items[k])
  }

  /** The ids worth sending: present and non-empty, in playlist order. */
  function ValidIds(items: seq<Track>): (ids: seq<string>)
    ensures |ids| <= |items|
    ensures forall k :: 0 <= k < |ids| ==> ids[k] != ""
  {
    if items == [] then []
    else
      var last := items[|items| - 1];
      ValidIds(items[..|items| - 1]) + (if HasId(last) then [last.id.value] else [])
  }

  /**
   * The id filter keeps exactly the ids of the items that carry one: every item with a
   * present, non-empty id contributes it, and every id sent comes from such an item.
   */
  lemma {:induction false} ValidIdsExact(items: seq<Track>)
    ensures forall k :: 0 <= k < |items| && HasId(items[k]) ==> items[k].id.value in ValidIds(items)
    ensures forall k :: 0 <= k < |ValidIds(items)| ==>
      exists j :: 0 <= j < |items| && HasId(items[j]) && items[j].id.value == ValidIds(items)[k]
  {
    if items != [] {
      var init := items[..|items| - 1];
      ValidIdsExact(init);
      var rest := ValidIds(init);
      var r := ValidIds(items);
      assert forall k :: 0 <= k < |rest| ==> r[k] == rest[k];
      forall k | 0 <= k < |items| && HasId(items[k])
        ensures items[k].id.value in r
      {
        if k < |init| {
          assert init[k] == items[k];
          assert items[k].id.value in rest;
        } else {
          assert r[|r| - 1] == items[k].id.value;
        }
      }
      forall k | 0 <= k < |r|
        ensures exists j :: 0 <= j < |items| && HasId(items[j]) && items[j].id.value == r[k]
      {
        if k < |rest| {
          assert ValidIds(init)[k] == rest[k];
          var j :| 0 <= j < |init| && HasId(init[j]) && init[j].id.value == ValidIds(init)[k];
          assert items[j] == init[j];
        } else {
          assert items[|items| - 1].id.value == r[k];
        }
      }
    } else {
      assert ValidIds(items) == [];
    }
  }

  /**
   * The filter is the comprehension over the items: a single item contributes its id exactly
   * when it carries one, and the ids of a concatenation are the ids of each part in turn, so
   * every id keeps its item's position in playlist order and appears once per such item.
   */
  lemma {:induction false} ValidIdsConcat(a: seq<Track>, b: seq<Track>, t: Track)
    ensures ValidIds([t]) == if HasId(t) then [t.id.value] else []
    ensures ValidIds(a + b) == ValidIds(a) + ValidIds(b)
  {
    assert [t][..0] == [];
    if b == [] {
      assert a + b == a;
    } else {
      var init := b[..|b| - 1];
      ValidIdsConcat(a, init, t);
      assert (a + b)[..|a + b| - 1] == a + init;
      assert (a + b)[|a + b| - 1] == b[|b| - 1];
    }
  }

  /** One id is sent per item that carries one. */
  lemma {:induction false} ValidIdsCount(items: seq<Track>)
    ensures |ValidIds(items)| == |IdPositions(items)|
  {
    if items != [] {
      ValidIdsCount(items[..|items| - 1]);
      IdPositionsStep(items);
    } else {
      assert forall k: nat :: k !in IdPositions(items);
      assert IdPositions(items) == {};
    }
  }

  lemma IdPositionsStep(items: seq<Track>)
    requires items != []
    ensures var n := |items| - 1;
      && n !in IdPositions(items[..n])
      && IdPositions(items)
         == IdPositions(items[..n]) + (if HasId(items[n]) then {n} else {})
  {
    var n := |items| - 1;
    var init := items[..n];
    var extra: set<nat> := if HasId(items[n]) then {n} else {};
    forall k: nat ensures k in IdPositions(items) <==> k in IdPositions(init) + extra {
      if k < n {
        assert init[k] == items[k];
      }
    }
  }

  /** The tracks whose ids are sent, in playlist order. */
  function WithIds(items: seq<Track>): seq<Track>
  {
    if items == [] then []
    else
      var last := items[|items| - 1];
      WithIds(items[..|items| - 1]) + (if HasId(last) then [last] else [])
  }

  /** The filtered tracks line up one to one with the ids sent. */
  lemma {:induction false} WithIdsAligned(items: seq<Track>)
    ensures |WithIds(items)| == |ValidIds(items)|
    ensures forall k :: 0 <= k < |WithIds(items)| ==>
      HasId(WithIds(items)[k]) && WithIds(items)[k].id.value == ValidIds(items)[k]
  {
    if items != [] {
      WithIdsAligned(items[..|items| - 1]);
    }
  }

  lemma {:induction false} WithIdsAll(items: seq<Track>)
    requires forall k :: 0 <= k < |items| ==> HasId(items[k])
    ensures WithIds(items) == items
  {
    if items != [] {
      WithIdsAll(items[..|items| - 1]);
    }
  }

  // ---------------------------------------------------------------------------
  // Batching

  /** The requests made for the ids from position `i` on: consecutive slices of 50. */
  function Batches(ids: seq<string>, i: nat): seq<seq<string>>
    decreases |ids| - i
  {
    if i >= |ids| then [] else [Slice(ids, i, i + BatchSize)] + Batches(ids, i + BatchSize)
  }

  function Flatten(bs: seq<seq<string>>): seq<string>
  {
    if bs == [] then [] else bs[0] + Flatten(bs[1..])
  }

  /**
   * Batching loses, duplicates and reorders nothing: the requests put back together are the
   * ids, every request holds between 1 and 50 ids, and there are ceil(n / 50) requests.
   */
  lemma {:induction false} BatchesCover(ids: seq<string>, i: nat)
    requires i <= |ids|
    ensures Flatten(Batches(ids, i)) == ids[i..]
    ensures forall b :: 0 <= b < |Batches(ids, i)| ==> 1 <= |Batches(ids, i)[b]| <= BatchSize
    ensures |Batches(ids, i)| == (|ids| - i + BatchSize - 1) / BatchSize
    decreases |ids| - i
  {
    if i < |ids| {
      if i + BatchSize <= |ids| {
        BatchesCover(ids, i + BatchSize);
        assert ids[i..] == ids[i..i + BatchSize] + ids[i + BatchSize..];
      } else {
        assert Batches(ids, i + BatchSize) == [];
      }
    }
  }

  /** 120 ids go out as requests of 50, 50 and 20. */
  lemma BatchesOf120(ids: seq<string>)
    requires |ids| == 120
    ensures |Batches(ids, 0)| == 3
    ensures |Batches(ids, 0)[0]| == 50 && |Batches(ids, 0)[1]| == 50 && |Batches(ids, 0)[2]| == 20
  {
    assert Batches(ids, 150) == [];
    assert Batches(ids, 100) == [Slice(ids, 100, 150)];
    assert Batches(ids, 50) == [Slice(ids, 50, 100), Slice(ids, 100, 150)];
    assert Batches(ids, 0) == [Slice(ids, 0, 50), Slice(ids, 50, 100), Slice(ids, 100, 150)];
  }

  // ---------------------------------------------------------------------------
  // The join as the analyser performs it

  /** Zip `tracks` with `results` from position `k`, storing each present profile by track name. */
  function StoreFrom(m: map<string, AudioProfile>, tracks: seq<Track>,
                     results: seq<Option<AudioProfile>>, k: nat): map<string, AudioProfile>
    decreases |tracks| - k
  {
    if k >= |tracks| || k >= |results| then m
    else
      var m' := if results[k].Some? then m[tracks[k].name := results[k].value] else m;
      StoreFrom(m', tracks, results, k + 1)
  }

  /**
   * Process the requests from id position `i` on: request `ids[i:i+50]`, then zip the answers
   * with `tracks[i:i+50]`.
   */
  function JoinFrom(m: map<string, AudioProfile>, tracks: seq<Track>, ids: seq<string>,
                    fetch: FeatureFetch, i: nat): map<string, AudioProfile>
    decreases |ids| - i
  {
    if i >= |ids| then m
    else
      var stored := StoreFrom(m, Slice(tracks, i, i + BatchSize), fetch(Slice(ids, i, i + BatchSize)), 0);
      JoinFrom(stored, tracks, ids, fetch, i + BatchSize)
  }

  /**
   * The join as written: the answers for the i-th batch of FILTERED ids are zipped with the
   * i-th slice of the UNFILTERED playlist, and stored under the track's name.
   */
  function JoinAsWritten(items: seq<Track>, fetch: FeatureFetch): map<string, AudioProfile>
  {
    JoinFrom(map[], items, ValidIds(items), fetch, 0)
  }

  /** The corrected join: the answers are zipped with the tracks whose ids were sent. */
  function JoinCorrected(items: seq<Track>, fetch: FeatureFetch): map<string, AudioProfile>
  {
    JoinFrom(map[], WithIds(items), ValidIds(items), fetch, 0)
  }

  /** What the service answered for the id at position `k` of the id list. */
  function AnswerAt(ids: seq<string>, fetch: FeatureFetch, k: nat): Option<AudioProfile>
  {
    var start := (k / BatchSize) * BatchSize;
    var answers := fetch(Slice(ids, start, start + BatchSize));
    if k - start < |answers| then answers[k - start] else None
  }

  /** Every stored profile is the answer given at the position of a track with that name. */
  ghost predicate Attributed(m: map<string, AudioProfile>, tracks: seq<Track>, ids: seq<string>,
                             fetch: FeatureFetch)
  {
    forall n :: n in m ==>
      exists k :: 0 <= k < |tracks| && tracks[k].name == n && AnswerAt(ids, fetch, k) == Some(m[n])
  }

  lemma {:induction false} StoreFromAttributed(m: map<string, AudioProfile>, tracks: seq<Track>,
                                               ids: seq<string>, fetch: FeatureFetch, i: nat, k: nat)
    requires i % 50 == 0 && i < |ids|
    requires Attributed(m, tracks, ids, fetch)
    ensures Attributed(StoreFrom(m, Slice(tracks, i, i + BatchSize),
                                 fetch(Slice(ids, i, i + BatchSize)), k), tracks, ids, fetch)
    decreases |tracks| - k
  {
    var ts := Slice(tracks, i, i + BatchSize);
    var rs := fetch(Slice(ids, i, i + BatchSize));
    if k < |ts| && k < |rs| {
      var m' := if rs[k].Some? then m[ts[k].name := rs[k].value] else m;
      if rs[k].Some? {
        assert (i + k) / BatchSize * BatchSize == i by {
          assert i == (i / BatchSize) * BatchSize;
        }
        assert AnswerAt(ids, fetch, i + k) == rs[k];
        forall n | n in m'
          ensures exists j :: 0 <= j < |tracks| && tracks[j].name == n
                              && AnswerAt(ids, fetch, j) == Some(m'[n])
        {
          if n == ts[k].name {
            assert tracks[i + k].name == n;
          } else {
            assert n in m;
          }
        }
      }
      StoreFromAttributed(m', tracks, ids, fetch, i, k + 1);
    }
  }

  /** The state after processing one more request. */
  function AfterBatch(m: map<string, AudioProfile>, tracks: seq<Track>, ids: seq<string>,
                      fetch: FeatureFetch, i: nat): map<string, AudioProfile>
  {
    StoreFrom(m, Slice(tracks, i, i + BatchSize), fetch(Slice(ids, i, i + BatchSize)), 0)
  }

  lemma JoinFromStep(m: map<string, AudioProfile>, tracks: seq<Track>, ids: seq<string>,
                     fetch: FeatureFetch, i: nat)
    requires i < |ids|
    ensures JoinFrom(m, tracks, ids, fetch, i)
            == JoinFrom(AfterBatch(m, tracks, ids, fetch, i), tracks, ids, fetch, i + BatchSize)
  {
  }

  lemma {:induction false} JoinFromAttributed(m: map<string, AudioProfile>, tracks: seq<Track>,
                                              ids: seq<string>, fetch: FeatureFetch, i: nat)
    requires i % 50 == 0
    requires Attributed(m, tracks, ids, fetch)
    ensures Attributed(JoinFrom(m, tracks, ids, fetch, i), tracks, ids, fetch)
    decreases |ids| - i
  {
    if i < |ids| {
      var stored := AfterBatch(m, tracks, ids, fetch, i);
      StoreFromAttributed(m, tracks, ids, fetch, i, 0);
      JoinFromAttributed(stored, tracks, ids, fetch, i + BatchSize);
      JoinFromStep(m, tracks, ids, fetch, i);
    }
  }

  /** Storing answers never removes a name already stored. */
  lemma {:induction false} StoreFromKeeps(m: map<string, AudioProfile>, tracks: seq<Track>,
                                          results: seq<Option<AudioProfile>>, k: nat)
    ensures m.Keys <= StoreFrom(m, tracks, results, k).Keys
    decreases |tracks| - k
  {
    if k < |tracks| && k < |results| {
      var m' := if results[k].Some? then m[tracks[k].name := results[k].value] else m;
      StoreFromKeeps(m', tracks, results, k + 1);
    }
  }

  lemma {:induction false} JoinFromKeeps(m: map<string, AudioProfile>, tracks: seq<Track>,
                                         ids: seq<string>, fetch: FeatureFetch, i: nat)
    ensures m.Keys <= JoinFrom(m, tracks, ids, fetch, i).Keys
    decreases |ids| - i
  {
    if i < |ids| {
      StoreFromKeeps(m, Slice(tracks, i, i + BatchSize), fetch(Slice(ids, i, i + BatchSize)), 0);
      JoinFromKeeps(AfterBatch(m, tracks, ids, fetch, i), tracks, ids, fetch, i + BatchSize);
    }
  }

  /** A present answer at zip position `j` stores the name of the track at `j`. */
  lemma {:induction false} StoreFromStores(m: map<string, AudioProfile>, tracks: seq<Track>,
                                           results: seq<Option<AudioProfile>>, k: nat, j: nat)
    requires k <= j < |tracks| && j < |results| && results[j].Some?
    ensures tracks[j].name in StoreFrom(m, tracks, results, k)
    decreases |tracks| - k
  {
    var m' := if results[k].Some? then m[tracks[k].name := results[k].value] else m;
    if k == j {
      StoreFromKeeps(m', tracks, results, k + 1);
    } else {
      StoreFromStores(m', tracks, results, k + 1, j);
    }
  }

  /** A position inside the batch that starts at `i` belongs to that batch. */
  lemma BatchStart(i: nat, j: nat)
    requires i % BatchSize == 0 && i <= j < i + BatchSize
    ensures (j / BatchSize) * BatchSize == i
  {
    assert i == (i / BatchSize) * BatchSize;
  }

  /** The batch that starts at `i` stores every track of it whose answer is present. */
  lemma BatchStores(m: map<string, AudioProfile>, tracks: seq<Track>, ids: seq<string>,
                    fetch: FeatureFetch, i: nat, j: nat)
    requires i % BatchSize == 0 && i <= j < i + BatchSize && j < |ids| && j < |tracks|
    requires AnswerAt(ids, fetch, j).Some?
    ensures tracks[j].name in AfterBatch(m, tracks, ids, fetch, i)
  {
    BatchStart(i, j);
    var ts := Slice(tracks, i, i + BatchSize);
    var answers := fetch(Slice(ids, i, i + BatchSize));
    assert answers[j - i].Some?;
    assert ts[j - i] == tracks[j];
    StoreFromStores(m, ts, answers, 0, j - i);
  }

  /** Every track at an id position whose answer is present ends up stored under its name. */
  lemma {:induction false} JoinFromStores(m: map<string, AudioProfile>, tracks: seq<Track>,
                                          ids: seq<string>, fetch: FeatureFetch, i: nat, j: nat)
    requires i % BatchSize == 0 && i <= j < |ids| && j < |tracks|
    requires AnswerAt(ids, fetch, j).Some?
    ensures tracks[j].name in JoinFrom(m, tracks, ids, fetch, i)
    decreases |ids| - i
  {
    var stored := AfterBatch(m, tracks, ids, fetch, i);
    JoinFromStep(m, tracks, ids, fetch, i);
    if j < i + BatchSize {
      BatchStores(m, tracks, ids, fetch, i, j);
      JoinFromKeeps(stored, tracks, ids, fetch, i + BatchSize);
    } else {
      assert (i + BatchSize) % BatchSize == 0;
      JoinFromStores(stored, tracks, ids, fetch, i + BatchSize, j);
    }
  }

  // ---------------------------------------------------------------------------
  // The join position by position: the requests visit the zip positions 0, 1, 2, ... in order,
  // and a later store under a name overwrites an earlier one.

  /**
   * The zip positions the requests reach: every batch covers 50 positions, so the positions
   * below the next multiple of 50 at or above the number of ids.
   */
  function ZipBound(ids: seq<string>): nat
  {
    ((|ids| + BatchSize - 1) / BatchSize) * BatchSize
  }

  lemma ZipBoundFacts(ids: seq<string>, i: nat)
    requires i % BatchSize == 0
    ensures |ids| <= ZipBound(ids)
    ensures i < |ids| ==> i + BatchSize <= ZipBound(ids)
    ensures i >= |ids| ==> i >= ZipBound(ids)
  {
    var q := i / BatchSize;
    assert i == q * BatchSize;
  }

  /** The store made at zip position `k`, if the track there exists and its answer is present. */
  function Put(m: map<string, AudioProfile>, tracks: seq<Track>, ids: seq<string>,
               fetch: FeatureFetch, k: nat): map<string, AudioProfile>
  {
    if k < |tracks| && AnswerAt(ids, fetch, k).Some?
    then m[tracks[k].name := AnswerAt(ids, fetch, k).value]
    else m
  }

  /** The stores made at the zip positions from `k` up to `hi`, in order. */
  function PutFrom(m: map<string, AudioProfile>, tracks: seq<Track>, ids: seq<string>,
                   fetch: FeatureFetch, k: nat, hi: nat): map<string, AudioProfile>
    decreases hi - k
  {
    if k >= hi then m else PutFrom(Put(m, tracks, ids, fetch, k), tracks, ids, fetch, k + 1, hi)
  }

  lemma {:induction false} PutFromNothing(m: map<string, AudioProfile>, tracks: seq<Track>,
                                          ids: seq<string>, fetch: FeatureFetch, k: nat, hi: nat)
    requires forall j :: k <= j < hi && j < |tracks| ==> AnswerAt(ids, fetch, j).None?
    ensures PutFrom(m, tracks, ids, fetch, k, hi) == m
    decreases hi - k
  {
    if k < hi {
      PutFromNothing(m, tracks, ids, fetch, k + 1, hi);
    }
  }

  lemma {:induction false} PutFromSplit(m: map<string, AudioProfile>, tracks: seq<Track>,
                                        ids: seq<string>, fetch: FeatureFetch, a: nat, b: nat, c: nat)
    requires a <= b <= c
    ensures PutFrom(PutFrom(m, tracks, ids, fetch, a, b), tracks, ids, fetch, b, c)
            == PutFrom(m, tracks, ids, fetch, a, c)
    decreases b - a
  {
    if a < b {
      PutFromSplit(Put(m, tracks, ids, fetch, a), tracks, ids, fetch, a + 1, b, c);
    }
  }

  /** Positions that store nothing under `n` leave `n`'s entry as it was. */
  lemma {:induction false} PutFromUntouched(m: map<string, AudioProfile>, tracks: seq<Track>,
                                            ids: seq<string>, fetch: FeatureFetch, k: nat, hi: nat,
                                            n: string)
    requires forall j :: k <= j < hi && j < |tracks| && tracks[j].name == n ==>
      AnswerAt(ids, fetch, j).None?
    ensures n in PutFrom(m, tracks, ids, fetch, k, hi) <==> n in m
    ensures n in m ==> PutFrom(m, tracks, ids, fetch, k, hi)[n] == m[n]
    decreases hi - k
  {
    if k < hi {
      PutFromUntouched(Put(m, tracks, ids, fetch, k), tracks, ids, fetch, k + 1, hi, n);
    }
  }

  /** The zip step at batch position `k` is the store at zip position `i + k`. */
  lemma StoreFromStep(m: map<string, AudioProfile>, tracks: seq<Track>, ids: seq<string>,
                      fetch: FeatureFetch, i: nat, k: nat)
    requires i % BatchSize == 0
    requires k < |Slice(tracks, i, i + BatchSize)| && k < |fetch(Slice(ids, i, i + BatchSize))|
    ensures StoreFrom(m, Slice(tracks, i, i + BatchSize), fetch(Slice(ids, i, i + BatchSize)), k)
            == StoreFrom(Put(m, tracks, ids, fetch, i + k), Slice(tracks, i, i + BatchSize),
                         fetch(Slice(ids, i, i + BatchSize)), k + 1)
  {
    BatchStart(i, i + k);
  }

  /** Past the end of a batch's tracks or answers, no position of the batch stores anything. */
  lemma BatchTailEmpty(tracks: seq<Track>, ids: seq<string>, fetch: FeatureFetch, i: nat, k: nat)
    requires i % BatchSize == 0
    requires k >= |Slice(tracks, i, i + BatchSize)| || k >= |fetch(Slice(ids, i, i + BatchSize))|
    ensures forall j :: i + k <= j < i + BatchSize && j < |tracks| ==> AnswerAt(ids, fetch, j).None?
  {
    forall j | i + k <= j < i + BatchSize && j < |tracks|
      ensures AnswerAt(ids, fetch, j).None?
    {
      BatchStart(i, j);
    }
  }

  /** Zipping one batch makes the stores of its 50 positions, in order. */
  lemma {:induction false} StoreFromIsPutFrom(m: map<string, AudioProfile>, tracks: seq<Track>,
                                              ids: seq<string>, fetch: FeatureFetch, i: nat, k: nat)
    requires i % BatchSize == 0 && k <= BatchSize
    ensures StoreFrom(m, Slice(tracks, i, i + BatchSize), fetch(Slice(ids, i, i + BatchSize)), k)
            == PutFrom(m, tracks, ids, fetch, i + k, i + BatchSize)
    decreases BatchSize - k
  {
    if k < |Slice(tracks, i, i + BatchSize)| && k < |fetch(Slice(ids, i, i + BatchSize))| {
      StoreFromStep(m, tracks, ids, fetch, i, k);
      StoreFromIsPutFrom(Put(m, tracks, ids, fetch, i + k), tracks, ids, fetch, i, k + 1);
    } else {
      BatchTailEmpty(tracks, ids, fetch, i, k);
      PutFromNothing(m, tracks, ids, fetch, i + k, i + BatchSize);
    }
  }

  /** The whole join is the stores of every zip position the requests reach, in order. */
  lemma {:induction false} JoinFromIsPutFrom(m: map<string, AudioProfile>, tracks: seq<Track>,
                                             ids: seq<string>, fetch: FeatureFetch, i: nat)
    requires i % BatchSize == 0
    ensures JoinFrom(m, tracks, ids, fetch, i) == PutFrom(m, tracks, ids, fetch, i, ZipBound(ids))
    decreases |ids| - i
  {
    ZipBoundFacts(ids, i);
    if i < |ids| {
      JoinFromStep(m, tracks, ids, fetch, i);
      StoreFromIsPutFrom(m, tracks, ids, fetch, i, 0);
      assert (i + BatchSize) % BatchSize == 0;
      JoinFromIsPutFrom(AfterBatch(m, tracks, ids, fetch, i), tracks, ids, fetch, i + BatchSize);
      PutFromSplit(m, tracks, ids, fetch, i, i + BatchSize, ZipBound(ids));
    }
  }

  /**
   * Zip position `k`, below `hi`, has a track and a present answer, and no later position
   * below `hi` with a track of the same name has one.
   */
  predicate LastPresent(tracks: seq<Track>, ids: seq<string>, fetch: FeatureFetch, k: nat, hi: nat)
  {
    && k < |tracks| && k < hi && AnswerAt(ids, fetch, k).Some?
    && forall j :: k < j < |tracks| && j < hi && tracks[j].name == tracks[k].name ==>
         AnswerAt(ids, fetch, j).None?
  }

  /** The last position that stores under a name decides that name's entry. */
  lemma {:induction false} PutFromLastWins(m: map<string, AudioProfile>, tracks: seq<Track>,
                                           ids: seq<string>, fetch: FeatureFetch, lo: nat, hi: nat,
                                           k: nat)
    requires lo <= k < hi && k < |tracks| && AnswerAt(ids, fetch, k).Some?
    requires forall j :: k < j < hi && j < |tracks| && tracks[j].name == tracks[k].name ==>
      AnswerAt(ids, fetch, j).None?
    ensures tracks[k].name in PutFrom(m, tracks, ids, fetch, lo, hi)
    ensures PutFrom(m, tracks, ids, fetch, lo, hi)[tracks[k].name] == AnswerAt(ids, fetch, k).value
    decreases k - lo
  {
    if lo < k {
      PutFromLastWins(Put(m, tracks, ids, fetch, lo), tracks, ids, fetch, lo + 1, hi, k);
    } else {
      PutFromUntouched(Put(m, tracks, ids, fetch, k), tracks, ids, fetch, k + 1, hi, tracks[k].name);
    }
  }

  /**
   * Where several zip positions carry the same name and a present answer, the join keeps the
   * answer of the last of them, as assigning into a dictionary overwrites.
   */
  lemma JoinLastWins(tracks: seq<Track>, ids: seq<string>, fetch: FeatureFetch, k: nat)
    requires LastPresent(tracks, ids, fetch, k, ZipBound(ids))
    ensures tracks[k].name in JoinFrom(map[], tracks, ids, fetch, 0)
    ensures JoinFrom(map[], tracks, ids, fetch, 0)[tracks[k].name] == AnswerAt(ids, fetch, k).value
  {
    JoinFromIsPutFrom(map[], tracks, ids, fetch, 0);
    PutFromLastWins(map[], tracks, ids, fetch, 0, ZipBound(ids), k);
  }

  /**
   * The corrected join stores a name exactly when the service answered for the id of a track
   * carrying that name, and what it stores is such an answer.
   */
  lemma JoinCorrectedAttributes(items: seq<Track>, fetch: FeatureFetch)
    ensures |WithIds(items)| == |ValidIds(items)|
    ensures forall n :: n in JoinCorrected(items, fetch) <==>
      exists k :: 0 <= k < |WithIds(items)| && WithIds(items)[k].name == n
                  && AnswerAt(ValidIds(items), fetch, k).Some?
    ensures forall n :: n in JoinCorrected(items, fetch) ==>
      exists k :: (0 <= k < |WithIds(items)| && WithIds(items)[k].name == n
        && HasId(WithIds(items)[k]) && WithIds(items)[k].id.value == ValidIds(items)[k]
        && AnswerAt(ValidIds(items), fetch, k) == Some(JoinCorrected(items, fetch)[n]))
  {
    var tracks, ids := WithIds(items), ValidIds(items);
    WithIdsAligned(items);
    JoinFromAttributed(map[], tracks, ids, fetch, 0);
    forall k | 0 <= k < |tracks| && AnswerAt(ids, fetch, k).Some?
      ensures tracks[k].name in JoinCorrected(items, fetch)
    {
      JoinFromStores(map[], tracks, ids, fetch, 0, k);
    }
  }

  /**
   * The join as written pairs the answer for the id at position `k` with the `k`-th item of
   * the whole playlist: whatever it stores under a name was answered at the position of an
   * item with that name, and every such present answer within the ids is stored.
   */
  lemma JoinAsWrittenAttributes(items: seq<Track>, fetch: FeatureFetch)
    ensures forall n :: n in JoinAsWritten(items, fetch) ==>
      exists k :: 0 <= k < |items| && items[k].name == n
                  && AnswerAt(ValidIds(items), fetch, k) == Some(JoinAsWritten(items, fetch)[n])
    ensures forall k :: 0 <= k < |items| && k < |ValidIds(items)|
                        && AnswerAt(ValidIds(items), fetch, k).Some? ==>
      items[k].name in JoinAsWritten(items, fetch)
  {
    var ids := ValidIds(items);
    JoinFromAttributed(map[], items, ids, fetch, 0);
    forall k | 0 <= k < |items| && k < |ids| && AnswerAt(ids, fetch, k).Some?
      ensures items[k].name in JoinAsWritten(items, fetch)
    {
      JoinFromStores(map[], items, ids, fetch, 0, k);
    }
  }

  /**
   * Among playlist items sharing a name, the join as written keeps the answer zipped with the
   * last of them that has a present answer: a later store under a name overwrites.
   */
  lemma JoinAsWrittenLastWins(items: seq<Track>, fetch: FeatureFetch, k: nat)
    requires LastPresent(items, ValidIds(items), fetch, k, ZipBound(ValidIds(items)))
    ensures items[k].name in JoinAsWritten(items, fetch)
    ensures JoinAsWritten(items, fetch)[items[k].name] == AnswerAt(ValidIds(items), fetch, k).value
  {
    JoinLastWins(items, ValidIds(items), fetch, k);
  }

  /**
   * Among sent tracks sharing a name, the corrected join keeps the answer for the last of them
   * that has a present answer.
   */
  lemma JoinCorrectedLastWins(items: seq<Track>, fetch: FeatureFetch, k: nat)
    requires LastPresent(WithIds(items), ValidIds(items), fetch, k, |WithIds(items)|)
    ensures WithIds(items)[k].name in JoinCorrected(items, fetch)
    ensures JoinCorrected(items, fetch)[WithIds(items)[k].name]
            == AnswerAt(ValidIds(items), fetch, k).value
  {
    WithIdsAligned(items);
    ZipBoundFacts(ValidIds(items), 0);
    JoinLastWins(WithIds(items), ValidIds(items), fetch, k);
  }

  /** Two items named "A", with ids "a" and "b" answered p and q: the later answer q is kept. */
  lemma DuplicateNameKeepsLast(p: AudioProfile, q: AudioProfile, fetch: FeatureFetch)
    requires fetch(["a", "b"]) == [Some(p), Some(q)]
    ensures var items := [Track(Some("a"), "A", "", [], 0, 0, "", ""),
                          Track(Some("b"), "A", "", [], 0, 0, "", "")];
      JoinAsWritten(items, fetch) == map["A" := q]
  {
    var t1 := Track(Some("a"), "A", "", [], 0, 0, "", "");
    var t2 := Track(Some("b"), "A", "", [], 0, 0, "", "");
    var items := [t1, t2];
    assert items[..1] == [t1];
    assert [t1][..0] == [];
    assert ValidIds([t1]) == ["a"];
    assert ValidIds(items) == ["a", "b"];
    assert Slice(["a", "b"], 0, BatchSize) == ["a", "b"];
    assert ZipBound(["a", "b"]) == BatchSize;
    assert AnswerAt(["a", "b"], fetch, 1) == Some(q);
    JoinAsWrittenLastWins(items, fetch, 1);
    JoinAsWrittenAttributes(items, fetch);
    assert JoinAsWritten(items, fetch).Keys == {"A"};
  }

  /** When every track has an id the join as written and the corrected join coincide. */
  lemma JoinAsWrittenCorrectWithAllIds(items: seq<Track>, fetch: FeatureFetch)
    requires forall k :: 0 <= k < |items| ==> HasId(items[k])
    ensures JoinAsWritten(items, fetch) == JoinCorrected(items, fetch)
  {
    WithIdsAll(items);
  }

  /**
   * With one track lacking an id, the profile the service answers for the next track's id is
   * stored under the name of the track that had no id; the corrected join stores it under the
   * track it belongs to.
   */
  lemma JoinAsWrittenMisattributes(p: AudioProfile, fetch: FeatureFetch)
    requires fetch(["b"]) == [Some(p)]
    ensures var a := Track(None, "A", "", [], 0, 0, "", "");
            var b := Track(Some("b"), "B", "", [], 0, 0, "", "");
            && JoinAsWritten([a, b], fetch) == map["A" := p]
            && JoinCorrected([a, b], fetch) == map["B" := p]
  {
    var a := Track(None, "A", "", [], 0, 0, "", "");
    var b := Track(Some("b"), "B", "", [], 0, 0, "", "");
    assert [a, b][..1] == [a];
    assert [a][..0] == [];
    assert !HasId(a) && HasId(b);
    assert ValidIds([a]) == ValidIds([a][..0]) + [];
    assert ValidIds([a]) == [];
    assert WithIds([a]) == WithIds([a][..0]) + [];
    assert WithIds([a]) == [];
    assert ValidIds([a, b]) == ValidIds([a]) + ["b"];
    assert WithIds([a, b]) == WithIds([a]) + [b];
    assert Slice([a, b], 0, BatchSize) == [a, b];
    assert Slice([b], 0, BatchSize) == [b];
    assert Slice(["b"], 0, BatchSize) == ["b"];
    JoinFromStep(map[], [a, b], ["b"], fetch, 0);
    JoinFromStep(map[], [b], ["b"], fetch, 0);
    assert StoreFrom(map["A" := p], [a, b], [Some(p)], 1) == map["A" := p];
    assert StoreFrom(map[], [a, b], [Some(p)], 0) == map["A" := p];
    assert StoreFrom(map["B" := p], [b], [Some(p)], 1) == map["B" := p];
    assert StoreFrom(map[], [b], [Some(p)], 0) == map["B" := p];
    assert AfterBatch(map[], [a, b], ["b"], fetch, 0) == map["A" := p];
    assert AfterBatch(map[], [b], ["b"], fetch, 0) == map["B" := p];
    assert JoinFrom(map["A" := p], [a, b], ["b"], fetch, BatchSize) == map["A" := p];
    assert JoinFrom(map["B" := p], [b], ["b"], fetch, BatchSize) == map["B" := p];
    assert ValidIds([a, b]) == ["b"] && WithIds([a, b]) == [b];
    assert JoinAsWritten([a, b], fetch) == JoinFrom(map[], [a, b], ["b"], fetch, 0);
    assert JoinCorrected([a, b], fetch) == JoinFrom(map[], [b], ["b"], fetch, 0);
  }
}

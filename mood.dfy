/** Mood classification from acoustic descriptors and the mood distribution over a playlist. */
module Mood {
  import opened Basics

  /** The acoustic descriptors the audio-feature service returns for one track. */
  datatype AudioProfile = AudioProfile(valence: real, energy: real, tempo: real)

  datatype Mood = Happy | Sad | Energetic | Chill | Neutral

  /** The five moods, each once. */
  const AllMoods: seq<Mood> := [Happy, Sad, Energetic, Chill, Neutral]

  /**
   * First-match-wins decision chain over valence, energy and tempo. Each label covers one
   * region of descriptor space, the earlier rules taking precedence where regions overlap.
   */
  function DetermineMood(f: AudioProfile): (m: Mood)
    ensures m == Happy <==> f.valence > 0.7 && f.energy > 0.6
    ensures m == Sad <==> f.valence < 0.3 && f.energy < 0.4
    ensures m == Energetic <==> f.energy > 0.7 && f.valence <= 0.7
    ensures m == Chill <==>
              f.tempo < 100.0 && f.energy <= 0.7 && !(f.valence > 0.7 && f.energy > 0.6)
              && !(f.valence < 0.3 && f.energy < 0.4)
    ensures m == Neutral <==>
              f.tempo >= 100.0 && f.energy <= 0.7 && !(f.valence > 0.7 && f.energy > 0.6)
              && !(f.valence < 0.3 && f.energy < 0.4)
  {
    if f.valence > 0.7 && f.energy > 0.6 then Happy
    else if f.valence < 0.3 && f.energy < 0.4 then Sad
    else if f.energy > 0.7 then Energetic
    else if f.tempo < 100.0 then Chill
    else Neutral
  }

  /** A track that is loud enough is never Chill or Neutral, whatever its tempo. */
  lemma HighEnergyIsHappyOrEnergetic(f: AudioProfile)
    requires f.energy > 0.7
    ensures DetermineMood(f) == Happy || DetermineMood(f) == Energetic
  {
  }

  // ---------------------------------------------------------------------------
  // Mood distribution

  /** The names in `keys` whose rating is `m`. */
  function RatedAs(ratings: map<string, Mood>, keys: set<string>, m: Mood): set<string>
    requires keys <= ratings.Keys
  {
    set n | n in keys && ratings[n] == m
  }

  /** How many rated tracks carry mood `m`. */
  function MoodCount(ratings: map<string, Mood>, m: Mood): nat
  {
    |RatedAs(ratings, ratings.Keys, m)|
  }

  /** The mood view: for each mood present, its share of the rated tracks, in percent. */
  function MoodPercentages(ratings: map<string, Mood>): map<Mood, real>
  {
    map m | m in AllMoods && MoodCount(ratings, m) > 0 ::
      (MoodCount(ratings, m) as real / |ratings| as real) * 100.0
  }

  function CountsOver(ratings: map<string, Mood>, keys: set<string>): nat
    requires keys <= ratings.Keys
  {
    |RatedAs(ratings, keys, Happy)| + |RatedAs(ratings, keys, Sad)|
      + |RatedAs(ratings, keys, Energetic)| + |RatedAs(ratings, keys, Chill)|
      + |RatedAs(ratings, keys, Neutral)|
  }

  /** Adding one name to the counted keys raises exactly the count of its own mood. */
  lemma RatedAsAdd(ratings: map<string, Mood>, rest: set<string>, n: string, m: Mood)
    requires rest <= ratings.Keys && n in ratings && n !in rest
    ensures |RatedAs(ratings, rest + {n}, m)|
            == |RatedAs(ratings, rest, m)| + (if ratings[n] == m then 1 else 0)
  {
    if ratings[n] == m {
      assert RatedAs(ratings, rest + {n}, m) == RatedAs(ratings, rest, m) + {n};
    } else {
      assert RatedAs(ratings, rest + {n}, m) == RatedAs(ratings, rest, m);
    }
  }

  /** Every rated track is counted under exactly one mood. */
  lemma {:induction false} CountsPartition(ratings: map<string, Mood>, keys: set<string>)
    requires keys <= ratings.Keys
    ensures CountsOver(ratings, keys) == |keys|
    decreases |keys|
  {
    if keys != {} {
      var n :| n in keys;
      var rest := keys - {n};
      CountsPartition(ratings, rest);
      assert keys == rest + {n};
      RatedAsAdd(ratings, rest, n, Happy);
      RatedAsAdd(ratings, rest, n, Sad);
      RatedAsAdd(ratings, rest, n, Energetic);
      RatedAsAdd(ratings, rest, n, Chill);
      RatedAsAdd(ratings, rest, n, Neutral);
    }
  }

  lemma SharesOfWhole(h: real, s: real, e: real, c: real, n: real, t: real)
    requires t > 0.0 && h + s + e + c + n == t
    ensures (h / t) * 100.0 + (s / t) * 100.0 + (e / t) * 100.0 + (c / t) * 100.0
            + (n / t) * 100.0 == 100.0
  {
    assert (h / t) + (s / t) + (e / t) + (c / t) + (n / t) == (h + s + e + c + n) / t;
  }

  /** Whenever some track is rated, the mood percentages add up to exactly 100. */
  lemma MoodPercentagesSum(ratings: map<string, Mood>)
    requires |ratings| > 0
    ensures var p := MoodPercentages(ratings);
      PercentOr0(p, Happy) + PercentOr0(p, Sad) + PercentOr0(p, Energetic)
        + PercentOr0(p, Chill) + PercentOr0(p, Neutral) == 100.0
  {
    CountsPartition(ratings, ratings.Keys);
    var t := |ratings| as real;
    var p := MoodPercentages(ratings);
    forall m | m in AllMoods
      ensures PercentOr0(p, m) == (MoodCount(ratings, m) as real / t) * 100.0
    {
    }
    SharesOfWhole(MoodCount(ratings, Happy) as real, MoodCount(ratings, Sad) as real,
      MoodCount(ratings, Energetic) as real, MoodCount(ratings, Chill) as real,
      MoodCount(ratings, Neutral) as real, t);
  }

  /** Every percentage is a share of the whole: strictly positive and at most 100. */
  lemma MoodPercentagesBounded(ratings: map<string, Mood>, m: Mood)
    requires m in MoodPercentages(ratings)
    ensures 0.0 < MoodPercentages(ratings)[m] <= 100.0
  {
    var c := MoodCount(ratings, m);
    assert c > 0 && MoodPercentages(ratings)[m] == (c as real / |ratings| as real) * 100.0;
    assert RatedAs(ratings, ratings.Keys, m) <= ratings.Keys;
    SubsetCard(RatedAs(ratings, ratings.Keys, m), ratings.Keys);
    ShareOfWhole(c, |ratings|);
  }

  lemma ShareOfWhole(c: nat, t: nat)
    requires 0 < c <= t
    ensures 0.0 < (c as real / t as real) * 100.0 <= 100.0
  {
    assert c as real / t as real <= 1.0;
  }

  lemma {:induction false} SubsetCard<T>(a: set<T>, b: set<T>)
    requires a <= b
    ensures |a| <= |b|
    decreases |b|
  {
    if a != {} {
      var x :| x in a;
      SubsetCard(a - {x}, b - {x});
    }
  }
}

/**
 * Genre taxonomy: raw artist genre tags are mapped onto fifteen labels, every track splits one
 * unit of credit evenly over the set of labels its artists reach, and the credits become
 * percentages of the playlist's item count.
 */
module Genres {
  import opened Basics
  import opened Strings
  import opened Catalog

  /** What the artist lookup returns: display name and raw genre tags. */
  datatype ArtistInfo = ArtistInfo(name: string, genres: seq<string>)

  datatype Label =
    Country | Rock | Rap | Pop | HipHop | Jazz | Soul | Metal | Funk | Indie | Techno | Dubstep
    | Alt | Folk | Other

  const AllLabels: seq<Label> :=
    [Country, Rock, Rap, Pop, HipHop, Jazz, Soul, Metal, Funk, Indie, Techno, Dubstep, Alt, Folk,
     Other]

  /** The key under which a label is reported. */
  function LabelName(g: Label): string
  {
    match g
    case Country => "Country"  case Rock => "Rock"  case Rap => "Rap"  case Pop => "Pop"
    case HipHop => "Hip hop"  case Jazz => "Jazz"  case Soul => "Soul"  case Metal => "Metal"
    case Funk => "Funk"  case Indie => "Indie"  case Techno => "Techno"
    case Dubstep => "Dubstep"  case Alt => "Alt"  case Folk => "Folk"  case Other => "Other"
  }

  /**
   * The source collects the label texts in a set of strings; distinct labels have distinct
   * texts, so a set of labels counts exactly as that set of strings does.
   */
  lemma LabelNameInjective(g: Label, h: Label)
    ensures LabelName(g) == LabelName(h) <==> g == h
  {
  }

  /** The classification chain: the first substring the tag contains decides its label. */
  function Canonical(tag: string): Label
  {
    if Contains(tag, "country") then Country
    else if Contains(tag, "rock") then Rock
    else if Contains(tag, "rap") then Rap
    else if Contains(tag, "pop") then Pop
    else if Contains(tag, "hip hop") then HipHop
    else if Contains(tag, "jazz") then Jazz
    else if Contains(tag, "soul") then Soul
    else if Contains(tag, "metal") then Metal
    else if Contains(tag, "funk") then Funk
    else if Contains(tag, "indie") then Indie
    else if Contains(tag, "techno") then Techno
    else if Contains(tag, "dubstep") then Dubstep
    else if Contains(tag, "alternative") then Alt
    else if Contains(tag, "folk") then Folk
    else Other
  }

  /** The same rule as data: (substring, label) pairs in priority order. */
  const Priority: seq<(string, Label)> :=
    [("country", Country), ("rock", Rock), ("rap", Rap), ("pop", Pop), ("hip hop", HipHop),
     ("jazz", Jazz), ("soul", Soul), ("metal", Metal), ("funk", Funk), ("indie", Indie),
     ("techno", Techno), ("dubstep", Dubstep), ("alternative", Alt), ("folk", Folk)]

  /** Table-driven reading of a priority table, with Other as the catch-all. */
  function FirstMatch(tag: string, table: seq<(string, Label)>): Label
  {
    if table == [] then Other
    else if Contains(tag, table[0].0) then table[0].1
    else FirstMatch(tag, table[1..])
  }

  /** First-match-wins: the label of the earliest entry whose substring occurs, else Other. */
  lemma {:induction false} FirstMatchIsEarliest(tag: string, table: seq<(string, Label)>, i: nat)
    requires i < |table| && Contains(tag, table[i].0)
    requires forall j :: 0 <= j < i ==> !Contains(tag, table[j].0)
    ensures FirstMatch(tag, table) == table[i].1
  {
    if i > 0 {
      assert !Contains(tag, table[0].0);
      FirstMatchIsEarliest(tag, table[1..], i - 1);
    }
  }

  lemma {:induction false} FirstMatchNone(tag: string, table: seq<(string, Label)>)
    requires forall j :: 0 <= j < |table| ==> !Contains(tag, table[j].0)
    ensures FirstMatch(tag, table) == Other
  {
    if table != [] {
      FirstMatchNone(tag, table[1..]);
    }
  }

  /** One step of the table reading: test the head entry, otherwise go on with the rest. */
  lemma FirstMatchStep(tag: string, table: seq<(string, Label)>, sub: string, g: Label)
    requires table != [] && table[0] == (sub, g)
    ensures FirstMatch(tag, table) == if Contains(tag, sub) then g else FirstMatch(tag, table[1..])
  {
  }

  /** The lower-priority half of the table, read entry by entry. */
  lemma PriorityTail(tag: string)
    ensures FirstMatch(tag, Priority[7..]) ==
      if Contains(tag, "metal") then Metal
      else if Contains(tag, "funk") then Funk
      else if Contains(tag, "indie") then Indie
      else if Contains(tag, "techno") then Techno
      else if Contains(tag, "dubstep") then Dubstep
      else if Contains(tag, "alternative") then Alt
      else if Contains(tag, "folk") then Folk
      else Other
  {
    var t := Priority[7..];
    FirstMatchStep(tag, t, "metal", Metal);
    t := t[1..];
    FirstMatchStep(tag, t, "funk", Funk);
    t := t[1..];
    FirstMatchStep(tag, t, "indie", Indie);
    t := t[1..];
    FirstMatchStep(tag, t, "techno", Techno);
    t := t[1..];
    FirstMatchStep(tag, t, "dubstep", Dubstep);
    t := t[1..];
    FirstMatchStep(tag, t, "alternative", Alt);
    t := t[1..];
    FirstMatchStep(tag, t, "folk", Folk);
    t := t[1..];
    assert t == [];
  }

  /** The chain and the priority table classify every tag alike. */
  lemma CanonicalIsFirstMatch(tag: string)
    ensures Canonical(tag) == FirstMatch(tag, Priority)
  {
    var t := Priority;
    FirstMatchStep(tag, t, "country", Country);
    t := t[1..];
    FirstMatchStep(tag, t, "rock", Rock);
    t := t[1..];
    FirstMatchStep(tag, t, "rap", Rap);
    t := t[1..];
    FirstMatchStep(tag, t, "pop", Pop);
    t := t[1..];
    FirstMatchStep(tag, t, "hip hop", HipHop);
    t := t[1..];
    FirstMatchStep(tag, t, "jazz", Jazz);
    t := t[1..];
    FirstMatchStep(tag, t, "soul", Soul);
    t := t[1..];
    assert t == Priority[7..];
    PriorityTail(tag);
  }

  /** Examples of the priority order. */
  lemma CanonicalPopRap()
    ensures Canonical("pop rap") == Rap
  {
  }

  lemma DeepHouseMissesHigh()
    ensures !Contains("deep house", "country") && !Contains("deep house", "rock")
    ensures !Contains("deep house", "rap") && !Contains("deep house", "pop")
    ensures !Contains("deep house", "hip hop") && !Contains("deep house", "jazz")
    ensures !Contains("deep house", "soul")
  {
  }

  lemma DeepHouseMissesLow()
    ensures !Contains("deep house", "metal") && !Contains("deep house", "funk")
    ensures !Contains("deep house", "indie") && !Contains("deep house", "techno")
    ensures !Contains("deep house", "dubstep") && !Contains("deep house", "alternative")
    ensures !Contains("deep house", "folk")
  {
  }

  lemma CanonicalDeepHouse()
    ensures Canonical("deep house") == Other
  {
    DeepHouseMissesHigh();
    DeepHouseMissesLow();
  }

  lemma CanonicalSoul()
    ensures Canonical("soul") == Soul
  {
  }

  // ---------------------------------------------------------------------------
  // Labels of a track

  /** The labels a sequence of raw tags reaches. */
  function TagLabels(tags: seq<string>): set<Label>
  {
    if tags == [] then {} else TagLabels(tags[..|tags| - 1]) + {Canonical(tags[|tags| - 1])}
  }

  lemma {:induction false} TagLabelsIff(tags: seq<string>, g: Label)
    ensures g in TagLabels(tags) <==> exists k :: 0 <= k < |tags| && Canonical(tags[k]) == g
  {
    if tags != [] {
      var init := tags[..|tags| - 1];
      TagLabelsIff(init, g);
      if exists k :: 0 <= k < |tags| && Canonical(tags[k]) == g {
        var k :| 0 <= k < |tags| && Canonical(tags[k]) == g;
        if k < |init| {
          assert Canonical(init[k]) == g;
        }
      }
    }
  }

  /** The labels a sequence of artist credits reaches through the artist lookup. */
  function ArtistsLabels(artists: seq<Artist>, lookup: string -> ArtistInfo): set<Label>
  {
    if artists == [] then {}
    else
      ArtistsLabels(artists[..|artists| - 1], lookup)
        + TagLabels(lookup(artists[|artists| - 1].id).genres)
  }

  /** A track's label set: a label is in it exactly when some tag of some artist maps to it. */
  function TrackLabels(t: Track, lookup: string -> ArtistInfo): set<Label>
  {
    ArtistsLabels(t.artists, lookup)
  }

  lemma {:induction false} ArtistsLabelsIff(artists: seq<Artist>, lookup: string -> ArtistInfo,
                                            g: Label)
    ensures g in ArtistsLabels(artists, lookup) <==>
      exists a :: 0 <= a < |artists| && g in TagLabels(lookup(artists[a].id).genres)
  {
    if artists != [] {
      var init := artists[..|artists| - 1];
      ArtistsLabelsIff(init, lookup, g);
      if exists a :: 0 <= a < |artists| && g in TagLabels(lookup(artists[a].id).genres) {
        var a :| 0 <= a < |artists| && g in TagLabels(lookup(artists[a].id).genres);
        if a < |init| {
          assert init[a] == artists[a];
        }
      }
    }
  }

  /** Repeating an artist on a track does not change its labels. */
  lemma {:induction false} ArtistsLabelsRepeat(artists: seq<Artist>, lookup: string -> ArtistInfo,
                                               a: nat)
    requires a < |artists|
    ensures ArtistsLabels(artists + [artists[a]], lookup) == ArtistsLabels(artists, lookup)
  {
    forall g ensures g in ArtistsLabels(artists + [artists[a]], lookup) <==>
                     g in ArtistsLabels(artists, lookup)
    {
      ArtistsLabelsIff(artists + [artists[a]], lookup, g);
      ArtistsLabelsIff(artists, lookup, g);
      if g in ArtistsLabels(artists + [artists[a]], lookup) {
        var b :| 0 <= b < |artists| + 1
          && g in TagLabels(lookup((artists + [artists[a]])[b].id).genres);
        if b == |artists| {
          assert g in TagLabels(lookup(artists[a].id).genres);
        } else {
          assert (artists + [artists[a]])[b] == artists[b];
        }
      }
      if g in ArtistsLabels(artists, lookup) {
        var b :| 0 <= b < |artists| && g in TagLabels(lookup(artists[b].id).genres);
        assert (artists + [artists[a]])[b] == artists[b];
      }
    }
  }

  // ---------------------------------------------------------------------------
  // Credit splitting

  /** The share of one track's unit of credit that label `g` receives. */
  function Weight(labels: set<Label>, g: Label): real
  {
    if g in labels then 1.0 / |labels| as real else 0.0
  }

  /** Total credit label `g` collects over the playlist. */
  function Credit(items: seq<Track>, lookup: string -> ArtistInfo, g: Label): real
  {
    if items == [] then 0.0
    else Credit(items[..|items| - 1], lookup, g) + Weight(TrackLabels(items[|items| - 1], lookup), g)
  }

  /** The labels that received any credit (the keys of the count dictionary). */
  function Appeared(items: seq<Track>, lookup: string -> ArtistInfo): set<Label>
  {
    if items == [] then {}
    else Appeared(items[..|items| - 1], lookup) + TrackLabels(items[|items| - 1], lookup)
  }

  /** The genre view: each label that appeared, as credit over item count, in percent. */
  function GenrePercentages(items: seq<Track>, lookup: string -> ArtistInfo): map<Label, real>
  {
    if items == [] then map[]
    else map g | g in Appeared(items, lookup) :: (Credit(items, lookup, g) / |items| as real) * 100.0
  }

  /** A label appears exactly when it holds positive credit; credit never goes negative. */
  lemma {:induction false} CreditPositiveIffAppeared(items: seq<Track>, lookup: string -> ArtistInfo,
                                                     g: Label)
    ensures Credit(items, lookup, g) >= 0.0
    ensures Credit(items, lookup, g) > 0.0 <==> g in Appeared(items, lookup)
  {
    if items != [] {
      CreditPositiveIffAppeared(items[..|items| - 1], lookup, g);
      var labels := TrackLabels(items[|items| - 1], lookup);
      if g in labels {
        assert |labels| > 0;
        assert Weight(labels, g) > 0.0;
      } else {
        assert Weight(labels, g) == 0.0;
      }
    }
  }

  /** How many items reach at least one label. */
  function Covered(items: seq<Track>, lookup: string -> ArtistInfo): nat
  {
    if items == [] then 0
    else Covered(items[..|items| - 1], lookup)
         + (if TrackLabels(items[|items| - 1], lookup) != {} then 1 else 0)
  }

  lemma {:induction false} CoveredAtMostItems(items: seq<Track>, lookup: string -> ArtistInfo)
    ensures Covered(items, lookup) <= |items|
  {
    if items != [] {
      CoveredAtMostItems(items[..|items| - 1], lookup);
    }
  }

  // Sums over a list of labels

  function SumWeights(gs: seq<Label>, labels: set<Label>): real
  {
    if gs == [] then 0.0 else Weight(labels, gs[0]) + SumWeights(gs[1..], labels)
  }

  function CountIn(gs: seq<Label>, labels: set<Label>): nat
  {
    if gs == [] then 0 else (if gs[0] in labels then 1 else 0) + CountIn(gs[1..], labels)
  }

  lemma {:induction false} SumWeightsIsShare(gs: seq<Label>, labels: set<Label>)
    requires labels != {}
    ensures SumWeights(gs, labels) == CountIn(gs, labels) as real / |labels| as real
  {
    if gs != [] {
      SumWeightsIsShare(gs[1..], labels);
    }
  }

  lemma {:induction false} CountInRemove(gs: seq<Label>, labels: set<Label>, g: Label)
    requires g in labels
    ensures CountIn(gs, labels) == CountIn(gs, labels - {g}) + Count(gs, g)
  {
    if gs != [] {
      CountInRemove(gs[1..], labels, g);
      CountFront(gs, g);
    }
  }

  lemma {:induction false} CountOfDistinct(gs: seq<Label>, g: Label)
    requires Distinct(gs) && g in gs
    ensures Count(gs, g) == 1
  {
    CountFront(gs, g);
    if gs[0] != g {
      CountOfDistinct(gs[1..], g);
    } else {
      CountAbsent(gs[1..], g);
    }
  }

  /** Every label is listed exactly once. */
  lemma AllLabelsOnce(g: Label)
    ensures Count(AllLabels, g) == 1
  {
    assert Distinct(AllLabels);
    assert g in AllLabels by {
      match g
      case Country => case Rock => case Rap => case Pop => case HipHop => case Jazz =>
      case Soul => case Metal => case Funk => case Indie => case Techno => case Dubstep =>
      case Alt => case Folk => case Other =>
    }
    CountOfDistinct(AllLabels, g);
  }

  lemma CountInAllLabels(labels: set<Label>)
    ensures CountIn(AllLabels, labels) == |labels|
  {
    forall g | g in labels
      ensures Count(AllLabels, g) == 1
    {
      AllLabelsOnce(g);
    }
    CountInListedOnce(AllLabels, labels);
  }

  /** A list that holds each label of a set exactly once counts as many hits as the set has. */
  lemma {:induction false} CountInListedOnce(gs: seq<Label>, labels: set<Label>)
    requires forall g :: g in labels ==> Count(gs, g) == 1
    ensures CountIn(gs, labels) == |labels|
    decreases |labels|
  {
    if labels != {} {
      var g :| g in labels;
      CountInRemove(gs, labels, g);
      CountInListedOnce(gs, labels - {g});
    } else {
      CountInNone(gs);
    }
  }

  lemma {:induction false} CountInNone(gs: seq<Label>)
    ensures CountIn(gs, {}) == 0
  {
    if gs != [] {
      CountInNone(gs[1..]);
    }
  }

  lemma {:induction false} SumWeightsEmpty(gs: seq<Label>)
    ensures SumWeights(gs, {}) == 0.0
  {
    if gs != [] {
      SumWeightsEmpty(gs[1..]);
    }
  }

  /** Every track hands out exactly one unit of credit if it has labels, none otherwise. */
  lemma TrackCreditIsUnit(labels: set<Label>)
    ensures SumWeights(AllLabels, labels) == if labels == {} then 0.0 else 1.0
  {
    if labels == {} {
      SumWeightsEmpty(AllLabels);
    } else {
      SumWeightsIsShare(AllLabels, labels);
      CountInAllLabels(labels);
    }
  }

  function SumCredit(gs: seq<Label>, items: seq<Track>, lookup: string -> ArtistInfo): real
  {
    if gs == [] then 0.0 else Credit(items, lookup, gs[0]) + SumCredit(gs[1..], items, lookup)
  }

  lemma {:induction false} SumCreditStep(gs: seq<Label>, items: seq<Track>,
                                         lookup: string -> ArtistInfo)
    requires items != []
    ensures SumCredit(gs, items, lookup)
      == SumCredit(gs, items[..|items| - 1], lookup)
         + SumWeights(gs, TrackLabels(items[|items| - 1], lookup))
  {
    if gs != [] {
      SumCreditStep(gs[1..], items, lookup);
    }
  }

  /** All labels' credit together is the number of items that reach some label. */
  lemma {:induction false} TotalCreditIsCovered(items: seq<Track>, lookup: string -> ArtistInfo)
    ensures SumCredit(AllLabels, items, lookup) == Covered(items, lookup) as real
  {
    if items == [] {
      assert SumCredit(AllLabels, items, lookup) == 0.0 by {
        ZeroCredit(AllLabels, lookup);
      }
    } else {
      TotalCreditIsCovered(items[..|items| - 1], lookup);
      SumCreditStep(AllLabels, items, lookup);
      TrackCreditIsUnit(TrackLabels(items[|items| - 1], lookup));
    }
  }

  lemma {:induction false} ZeroCredit(gs: seq<Label>, lookup: string -> ArtistInfo)
    ensures SumCredit(gs, [], lookup) == 0.0
  {
    if gs != [] {
      ZeroCredit(gs[1..], lookup);
    }
  }

  function SumPercent(gs: seq<Label>, p: map<Label, real>): real
  {
    if gs == [] then 0.0 else PercentOr0(p, gs[0]) + SumPercent(gs[1..], p)
  }

  lemma {:induction false} SumPercentIsScaledCredit(gs: seq<Label>, items: seq<Track>,
                                                    lookup: string -> ArtistInfo)
    requires items != []
    ensures SumPercent(gs, GenrePercentages(items, lookup))
      == (SumCredit(gs, items, lookup) / |items| as real) * 100.0
  {
    if gs != [] {
      SumPercentIsScaledCredit(gs[1..], items, lookup);
      PercentOfLabel(items, lookup, gs[0]);
      ScaleAdd(Credit(items, lookup, gs[0]), SumCredit(gs[1..], items, lookup), |items| as real);
    }
  }

  /** Each label reads its credit over the item count, in percent (0 when it never appeared). */
  lemma PercentOfLabel(items: seq<Track>, lookup: string -> ArtistInfo, g: Label)
    requires items != []
    ensures PercentOr0(GenrePercentages(items, lookup), g)
      == (Credit(items, lookup, g) / |items| as real) * 100.0
  {
    CreditPositiveIffAppeared(items, lookup, g);
  }

  lemma ScaleAdd(a: real, b: real, n: real)
    requires n > 0.0
    ensures (a / n) * 100.0 + (b / n) * 100.0 == ((a + b) / n) * 100.0
  {
  }

  /**
   * The genre percentages add up to 100 times the fraction of items that reach some label:
   * never more than 100, and exactly 100 when every item has a label.
   */
  lemma GenrePercentagesSum(items: seq<Track>, lookup: string -> ArtistInfo)
    requires items != []
    ensures SumPercent(AllLabels, GenrePercentages(items, lookup))
      == (Covered(items, lookup) as real / |items| as real) * 100.0
    ensures SumPercent(AllLabels, GenrePercentages(items, lookup)) <= 100.0
    ensures Covered(items, lookup) == |items| ==>
      SumPercent(AllLabels, GenrePercentages(items, lookup)) == 100.0
  {
    SumPercentIsScaledCredit(AllLabels, items, lookup);
    TotalCreditIsCovered(items, lookup);
    CoveredAtMostItems(items, lookup);
    ShareAtMostWhole(Covered(items, lookup) as real, |items| as real);
  }

  lemma ShareAtMostWhole(c: real, n: real)
    requires 0.0 <= c <= n && n > 0.0
    ensures (c / n) * 100.0 <= 100.0
    ensures c == n ==> (c / n) * 100.0 == 100.0
  {
  }
}

/**
 * Rankings: artist popularity accumulated over the track table, normalisation against the
 * maximum, and the ten highest entries in descending order.
 */
module Ranking {
  import opened Basics
  import opened Strings
  import opened Catalog

  /** A ranked row: label and normalised score. */
  type Row = (string, real)

  // ---------------------------------------------------------------------------
  // Artist popularity

  /** One credit line: the artists a table entry is read as naming, and its popularity. */
  type CreditLine = (seq<string>, int)

  /** The table's values, in key order. */
  function Entries(keys: seq<string>, table: map<string, TrackInfo>): (r: seq<TrackInfo>)
    requires forall k :: 0 <= k < |keys| ==> keys[k] in table
    ensures |r| == |keys| && forall k :: 0 <= k < |keys| ==> r[k] == table[keys[k]]
  {
    seq(|keys|, k requires 0 <= k < |keys| => table[keys[k]])
  }

  /**
   * As the analyser reads an entry: its `artist` text split back on ", ". An entry that lists
   * at least one artist and no name holding ", " is read back as its own list.
   */
  function CreditsAsWritten(entries: seq<TrackInfo>): (r: seq<CreditLine>)
    ensures |r| == |entries|
    ensures forall k :: 0 <= k < |entries| ==> r[k].1 == entries[k].popularity
    ensures forall k :: 0 <= k < |entries| ==> r[k].0 == Split(ArtistLabel(entries[k]))
    ensures forall k :: 0 <= k < |entries| && SplitsBack(entries[k]) ==>
      r[k].0 == entries[k].artists
  {
    SplitsBackRoundTrip(entries);
    seq(|entries|, k requires 0 <= k < |entries| =>
      (Split(ArtistLabel(entries[k])), entries[k].popularity))
  }

  /** The entry names at least one artist and none of its names holds the separator. */
  predicate SplitsBack(e: TrackInfo)
  {
    e.artists != [] && forall j :: 0 <= j < |e.artists| ==> NoSep(e.artists[j])
  }

  lemma SplitsBackRoundTrip(entries: seq<TrackInfo>)
    ensures forall k :: 0 <= k < |entries| && SplitsBack(entries[k]) ==>
      Split(ArtistLabel(entries[k])) == entries[k].artists
  {
    forall k | 0 <= k < |entries| && SplitsBack(entries[k])
      ensures Split(ArtistLabel(entries[k])) == entries[k].artists
    {
      SplitJoin(entries[k].artists);
    }
  }

  /** As intended: the entry's own list of artist names. */
  function CreditsIntended(entries: seq<TrackInfo>): (r: seq<CreditLine>)
    ensures |r| == |entries|
    ensures forall k :: 0 <= k < |entries| ==> r[k] == (entries[k].artists, entries[k].popularity)
  {
    seq(|entries|, k requires 0 <= k < |entries| => (entries[k].artists, entries[k].popularity))
  }

  /** Add `pop` to every name in turn, starting new names at `pop`. */
  function AddNames(m: map<string, int>, names: seq<string>, pop: int): map<string, int>
  {
    if names == [] then m
    else
      var m' := AddNames(m, names[..|names| - 1], pop);
      var a := names[|names| - 1];
      m'[a := (if a in m' then m'[a] else 0) + pop]
  }

  /** The accumulated artist scores over a sequence of credit lines. */
  function Scores(lines: seq<CreditLine>): map<string, int>
  {
    if lines == [] then map[]
    else
      var last := lines[|lines| - 1];
      AddNames(Scores(lines[..|lines| - 1]), last.0, last.1)
  }

  /** New names in the order they are first met (the dictionary's insertion order). */
  function AppendNew(order: seq<string>, names: seq<string>): seq<string>
  {
    if names == [] then order
    else
      var o := AppendNew(order, names[..|names| - 1]);
      if names[|names| - 1] in o then o else o + [names[|names| - 1]]
  }

  function ScoreOrder(lines: seq<CreditLine>): seq<string>
  {
    if lines == [] then []
    else AppendNew(ScoreOrder(lines[..|lines| - 1]), lines[|lines| - 1].0)
  }

  /** The reference total: every line adds its popularity once per mention of `a`. */
  function TotalFor(lines: seq<CreditLine>, a: string): int
  {
    if lines == [] then 0
    else TotalFor(lines[..|lines| - 1], a) + Count(lines[|lines| - 1].0, a) * lines[|lines| - 1].1
  }

  predicate Mentions(lines: seq<CreditLine>, a: string)
  {
    exists k :: 0 <= k < |lines| && a in lines[k].0
  }

  lemma {:induction false} AddNamesKeys(m: map<string, int>, names: seq<string>, pop: int,
                                        a: string)
    ensures a in AddNames(m, names, pop) <==> a in m || a in names
  {
    if names != [] {
      var init := names[..|names| - 1];
      AddNamesKeys(m, init, pop, a);
      assert names == init + [names[|names| - 1]];
    }
  }

  lemma {:induction false} AddNamesMeaning(m: map<string, int>, names: seq<string>, pop: int,
                                           a: string)
    ensures a in AddNames(m, names, pop) <==> a in m || a in names
    ensures a in AddNames(m, names, pop) ==>
      AddNames(m, names, pop)[a] == (if a in m then m[a] else 0) + Count(names, a) * pop
  {
    AddNamesKeys(m, names, pop, a);
    if names != [] {
      var init := names[..|names| - 1];
      var last := names[|names| - 1];
      AddNamesMeaning(m, init, pop, a);
      AddNamesKeys(m, init, pop, last);
      if a in names && a !in m && a !in init {
        CountAbsent(init, a);
      }
      if last == a {
        MulSucc(Count(init, a), pop);
      }
    }
  }

  lemma MulSucc(o: int, pop: int)
    ensures (o + 1) * pop == o * pop + pop
  {
  }

  /**
   * An artist's score is the sum, over every line, of the line's popularity once per mention;
   * the scored artists are exactly the ones mentioned.
   */
  lemma {:induction false} ScoresMeaning(lines: seq<CreditLine>, a: string)
    ensures a in Scores(lines) <==> Mentions(lines, a)
    ensures a in Scores(lines) ==> Scores(lines)[a] == TotalFor(lines, a)
  {
    if lines != [] {
      var init := lines[..|lines| - 1];
      var last := lines[|lines| - 1];
      ScoresMeaning(init, a);
      AddNamesMeaning(Scores(init), last.0, last.1, a);
      if a !in Scores(init) {
        TotalForUnmentioned(init, a);
      }
      if Mentions(lines, a) {
        var k :| 0 <= k < |lines| && a in lines[k].0;
        if k < |init| {
          assert init[k] == lines[k];
        }
      }
      if Mentions(init, a) {
        var k :| 0 <= k < |init| && a in init[k].0;
        assert lines[k] == init[k];
      }
    }
  }

  lemma {:induction false} TotalForUnmentioned(lines: seq<CreditLine>, a: string)
    requires !Mentions(lines, a)
    ensures TotalFor(lines, a) == 0
  {
    if lines != [] {
      var init := lines[..|lines| - 1];
      CountAbsent(lines[|lines| - 1].0, a);
      assert !Mentions(init, a) by {
        forall k | 0 <= k < |init| ensures a !in init[k].0 {
          assert init[k] == lines[k];
        }
      }
      TotalForUnmentioned(init, a);
    }
  }

  lemma {:induction false} AppendNewShape(order: seq<string>, names: seq<string>)
    requires Distinct(order)
    ensures Distinct(AppendNew(order, names))
    ensures forall a :: a in AppendNew(order, names) <==> a in order || a in names
  {
    if names != [] {
      AppendNewShape(order, names[..|names| - 1]);
      assert names == names[..|names| - 1] + [names[|names| - 1]];
    }
  }

  /** The key order lists every scored artist exactly once. */
  lemma {:induction false} ScoreOrderShape(lines: seq<CreditLine>)
    ensures Distinct(ScoreOrder(lines))
    ensures forall a :: a in ScoreOrder(lines) <==> a in Scores(lines)
  {
    if lines != [] {
      var init := lines[..|lines| - 1];
      ScoreOrderShape(init);
      AppendNewShape(ScoreOrder(init), lines[|lines| - 1].0);
      forall a ensures a in ScoreOrder(lines) <==> a in Scores(lines) {
        AddNamesMeaning(Scores(init), lines[|lines| - 1].0, lines[|lines| - 1].1, a);
      }
    }
  }

  /** With non-negative popularities every score is non-negative. */
  lemma {:induction false} ScoresNonNegative(lines: seq<CreditLine>, a: string)
    requires forall k :: 0 <= k < |lines| ==> lines[k].1 >= 0
    requires a in Scores(lines)
    ensures Scores(lines)[a] >= 0
  {
    ScoresMeaning(lines, a);
    TotalForNonNegative(lines, a);
  }

  lemma {:induction false} TotalForNonNegative(lines: seq<CreditLine>, a: string)
    requires forall k :: 0 <= k < |lines| ==> lines[k].1 >= 0
    ensures TotalFor(lines, a) >= 0
  {
    if lines != [] {
      TotalForNonNegative(lines[..|lines| - 1], a);
    }
  }

  /** An artist on two tracks of popularity 40 and 60 accumulates 100. */
  lemma TwoTracksAccumulate(a: string)
    ensures Scores([([a], 40), ([a], 60)]) == map[a := 100]
  {
    assert [([a], 40), ([a], 60)][..1] == [([a], 40)];
    assert [([a], 40)][..0] == [];
    assert [a][..0] == [];
    assert AddNames(map[], [a], 40) == map[a := 40];
    assert Scores([([a], 40)]) == map[a := 40];
    assert AddNames(map[a := 40], [a], 60) == map[a := 100];
  }

  /** When no artist name holds ", " the split-back reading credits the same artists. */
  lemma CreditsAgreeWithoutSeparator(entries: seq<TrackInfo>)
    requires forall k :: 0 <= k < |entries| ==> SplitsBack(entries[k])
    ensures CreditsAsWritten(entries) == CreditsIntended(entries)
  {
  }

  lemma ScoresOneLine(line: CreditLine)
    ensures Scores([line]) == AddNames(map[], line.0, line.1)
  {
    assert [line][..0] == [];
  }

  lemma AddNamesOne(a: string, pop: int)
    ensures AddNames(map[], [a], pop) == map[a := pop]
  {
    assert [a][..0] == [];
  }

  lemma AddNamesTwo(a: string, b: string, pop: int)
    requires a != b
    ensures AddNames(map[], [a, b], pop) == map[a := pop, b := pop]
  {
    assert [a, b][..1] == [a];
    AddNamesOne(a, pop);
  }

  /**
   * An artist whose name is `a, b` is scored as two artists `a` and `b`, where the intended
   * reading scores the one artist `a, b`.
   */
  lemma SeparatorInNameSplitsArtist(a: string, b: string, pop: int)
    requires NoSep(a) && NoSep(b) && a != b
    ensures var e := TrackInfo([a + Sep + b], pop, 0, "", "");
      && Scores(CreditsAsWritten([e])) == map[a := pop, b := pop]
      && Scores(CreditsIntended([e])) == map[a + Sep + b := pop]
  {
    var e := TrackInfo([a + Sep + b], pop, 0, "", "");
    SplitJoinBreaksSepName(a, b);
    assert CreditsAsWritten([e]) == [([a, b], pop)];
    ScoresOneLine(([a, b], pop));
    AddNamesTwo(a, b, pop);
    assert CreditsIntended([e]) == [([a + Sep + b], pop)];
    ScoresOneLine(([a + Sep + b], pop));
    AddNamesOne(a + Sep + b, pop);
  }

  /**
   * The intended reading credits exactly the artists listed on some entry, each with the sum
   * over entries of the entry's popularity once per listing.
   */
  lemma IntendedScores(entries: seq<TrackInfo>, a: string)
    ensures var scores := Scores(CreditsIntended(entries));
      && (a in scores <==> exists k :: 0 <= k < |entries| && a in entries[k].artists)
      && (a in scores ==> scores[a] == TotalFor(CreditsIntended(entries), a))
  {
    var lines := CreditsIntended(entries);
    ScoresMeaning(lines, a);
    if exists k :: 0 <= k < |entries| && a in entries[k].artists {
      var k :| 0 <= k < |entries| && a in entries[k].artists;
      assert a in lines[k].0;
    }
  }

  /** For instance the single artist "Tyler, The Creator" comes out as "Tyler" and "The Creator". */
  lemma TylerTheCreatorSplit()
    ensures "Tyler" + Sep + "The Creator" == "Tyler, The Creator"
    ensures NoSep("Tyler") && NoSep("The Creator") && "Tyler" != "The Creator"
  {
  }

  /** A track credited to "Tyler, The Creator" alone is scored for "Tyler" and "The Creator". */
  lemma TylerTheCreatorScoredTwice(pop: int)
    ensures var e := TrackInfo(["Tyler, The Creator"], pop, 0, "", "");
      && Scores(CreditsAsWritten([e])) == map["Tyler" := pop, "The Creator" := pop]
      && Scores(CreditsIntended([e])) == map["Tyler, The Creator" := pop]
  {
    TylerTheCreatorSplit();
    SeparatorInNameSplitsArtist("Tyler", "The Creator", pop);
  }

  /** One entry's step of the accumulation loop: credit `pop` to each name in turn. */
  method CreditNames(scores0: map<string, int>, order0: seq<string>, names: seq<string>, pop: int)
    returns (scores: map<string, int>, order: seq<string>)
    requires forall a :: a in order0 <==> a in scores0
    ensures scores == AddNames(scores0, names, pop) && order == AppendNew(order0, names)
    ensures forall a :: a in order <==> a in scores
  {
    scores, order := scores0, order0;
    var j := 0;
    while j < |names|
      invariant 0 <= j <= |names|
      invariant scores == AddNames(scores0, names[..j], pop)
      invariant order == AppendNew(order0, names[..j])
      invariant forall a :: a in order <==> a in scores
    {
      var artist := names[j];
      assert names[..j + 1][..j] == names[..j];
      if artist in scores {
        scores := scores[artist := scores[artist] + pop];
      } else {
        scores := scores[artist := pop];
        order := order + [artist];
      }
      j := j + 1;
    }
    assert names[..j] == names;
  }

  /**
   * The accumulation loop over the table: for every entry, for every artist its `artist` text
   * splits into on ", ", add the entry's popularity to that artist's score.
   */
  method AccumulateArtistPopularity(keys: seq<string>, table: map<string, TrackInfo>)
    returns (scores: map<string, int>, order: seq<string>)
    requires forall k :: 0 <= k < |keys| ==> keys[k] in table
    ensures scores == Scores(CreditsAsWritten(Entries(keys, table)))
    ensures order == ScoreOrder(CreditsAsWritten(Entries(keys, table)))
  {
    ghost var lines := CreditsAsWritten(Entries(keys, table));
    scores, order := map[], [];
    var i := 0;
    while i < |keys|
      invariant 0 <= i <= |keys|
      invariant scores == Scores(lines[..i]) && order == ScoreOrder(lines[..i])
      invariant forall a :: a in order <==> a in scores
    {
      var info := table[keys[i]];
      scores, order := CreditNames(scores, order, Split(ArtistLabel(info)), info.popularity);
      assert lines[..i + 1][..i] == lines[..i];
      i := i + 1;
    }
    assert lines[..i] == lines;
  }

  // ---------------------------------------------------------------------------
  // Normalisation and the top ten

  /**
   * Each value divided by the maximum, times 100, labelled. An empty collection has no maximum
   * and a zero maximum cannot divide. With non-negative values every score lies in [0, 100]
   * and the maximum reads 100.
   */
  function Normalise(labels: seq<string>, values: seq<int>): (r: Result<seq<Row>>)
    requires |labels| == |values|
    ensures values == [] <==> r == Err(EmptyCollection)
    ensures values != [] ==> (r == Err(ZeroMaximum) <==> Max(values) == 0)
    ensures r.Ok? ==> |r.value| == |values| && forall k :: 0 <= k < |values| ==>
      r.value[k].0 == labels[k]
      && r.value[k].1 == (values[k] as real / Max(values) as real) * 100.0
    ensures r.Ok? && (forall k :: 0 <= k < |values| ==> values[k] >= 0) ==>
      && (forall k :: 0 <= k < |values| ==> 0.0 <= r.value[k].1 <= 100.0)
      && (exists k :: 0 <= k < |values| && r.value[k].1 == 100.0)
  {
    if values == [] then Err(EmptyCollection)
    else
      var m := Max(values);
      if m == 0 then Err(ZeroMaximum)
      else
        var rows := seq(|values|, k requires 0 <= k < |values| =>
          (labels[k], (values[k] as real / m as real) * 100.0));
        PercentRowsBounded(values, rows);
        Ok(rows)
  }

  /** Rows scaled against a positive maximum lie in [0, 100], and the maximum reads 100. */
  lemma PercentRowsBounded(values: seq<int>, rows: seq<Row>)
    requires values != [] && Max(values) != 0 && |rows| == |values|
    requires forall k :: 0 <= k < |values| ==>
      rows[k].1 == (values[k] as real / Max(values) as real) * 100.0
    ensures (forall k :: 0 <= k < |values| ==> values[k] >= 0) ==>
      && (forall k :: 0 <= k < |values| ==> 0.0 <= rows[k].1 <= 100.0)
      && (exists k :: 0 <= k < |values| && rows[k].1 == 100.0)
  {
    if forall k :: 0 <= k < |values| ==> values[k] >= 0 {
      var m := Max(values);
      forall k | 0 <= k < |values| ensures 0.0 <= rows[k].1 <= 100.0 {
        RatioBounds(values[k] as real, m as real);
      }
      var k :| 0 <= k < |values| && values[k] == m;
      assert m as real > 0.0;
      DivSelf(m as real);
      assert rows[k].1 == 100.0;
    }
  }

  lemma DivSelf(x: real)
    requires x > 0.0
    ensures x / x == 1.0
  {
  }

  lemma RatioBounds(v: real, m: real)
    requires 0.0 <= v <= m && m > 0.0
    ensures 0.0 <= (v / m) * 100.0 <= 100.0
  {
  }

  predicate SortedDesc(s: seq<Row>)
  {
    forall i, j :: 0 <= i < j < |s| ==> s[i].1 >= s[j].1
  }

  /** Insert before the first row that does not score higher (earlier rows stay first on ties). */
  function Insert(x: Row, s: seq<Row>): (r: seq<Row>)
    ensures |r| == |s| + 1
  {
    if s == [] then [x]
    else if x.1 >= s[0].1 then [x] + s
    else [s[0]] + Insert(x, s[1..])
  }

  /** Python's `sorted(..., key=score, reverse=True)`. */
  function SortDesc(s: seq<Row>): (r: seq<Row>)
    ensures |r| == |s|
  {
    if s == [] then [] else Insert(s[0], SortDesc(s[1..]))
  }

  lemma {:induction false} InsertPermutes(x: Row, s: seq<Row>)
    ensures multiset(Insert(x, s)) == multiset(s) + multiset{x}
    ensures |Insert(x, s)| == |s| + 1
    ensures Insert(x, s)[0] == x || (s != [] && Insert(x, s)[0] == s[0])
  {
    if s != [] && x.1 < s[0].1 {
      InsertPermutes(x, s[1..]);
      assert s == [s[0]] + s[1..];
    }
  }

  lemma {:induction false} InsertSorted(x: Row, s: seq<Row>)
    requires SortedDesc(s)
    ensures SortedDesc(Insert(x, s))
  {
    InsertPermutes(x, s);
    if s != [] && x.1 < s[0].1 {
      var t := s[1..];
      InsertSorted(x, t);
      InsertPermutes(x, t);
      var r := Insert(x, s);
      assert r == [s[0]] + Insert(x, t);
      forall j | 0 < j < |r| ensures s[0].1 >= r[j].1 {
        var y := Insert(x, t)[j - 1];
        assert y in multiset(Insert(x, t));
        assert y == x || y in multiset(t);
        if y != x {
          var q :| 0 <= q < |t| && t[q] == y;
          assert s[q + 1] == y;
        }
      }
    }
  }

  /** Sorting orders the rows by descending score and only rearranges them. */
  lemma {:induction false} SortDescCorrect(s: seq<Row>)
    ensures SortedDesc(SortDesc(s))
    ensures multiset(SortDesc(s)) == multiset(s)
    ensures |SortDesc(s)| == |s|
  {
    if s != [] {
      var t := SortDesc(s[1..]);
      SortDescCorrect(s[1..]);
      assert SortDesc(s) == Insert(s[0], t);
      InsertSorted(s[0], t);
      InsertPermutes(s[0], t);
      MultisetCons(s);
    }
  }

  lemma MultisetCons(s: seq<Row>)
    requires s != []
    ensures multiset(s) == multiset(s[1..]) + multiset{s[0]}
  {
    assert s == [s[0]] + s[1..];
  }

  /**
   * The `n` best rows: at most `n` rows in descending order, each one of the input, and every
   * input row left out scores no higher than the last one kept.
   */
  function TopN(s: seq<Row>, n: nat): (r: seq<Row>)
    ensures |r| == Min(n, |s|)
    ensures SortedDesc(r)
    ensures multiset(r) <= multiset(s)
    ensures forall i :: 0 <= i < |s| && s[i] !in r && n > 0 ==> |r| == n && s[i].1 <= r[n - 1].1
  {
    TopNFacts(s, n);
    SortDesc(s)[..Min(n, |s|)]
  }

  lemma TopNFacts(s: seq<Row>, n: nat)
    ensures var r := SortDesc(s)[..Min(n, |s|)];
      && SortedDesc(r)
      && multiset(r) <= multiset(s)
      && forall i :: 0 <= i < |s| && s[i] !in r && n > 0 ==> |r| == n && s[i].1 <= r[n - 1].1
  {
    SortDescCorrect(s);
    PrefixSubMultiset(SortDesc(s), Min(n, |s|));
    forall i | 0 <= i < |s| && s[i] !in SortDesc(s)[..Min(n, |s|)] && n > 0
      ensures Min(n, |s|) == n && s[i].1 <= SortDesc(s)[..Min(n, |s|)][n - 1].1
    {
      TopNLeftOut(s, n, i);
    }
  }

  lemma PrefixSubMultiset(s: seq<Row>, k: nat)
    requires k <= |s|
    ensures multiset(s[..k]) <= multiset(s)
  {
    assert s == s[..k] + s[k..];
  }

  lemma TopNLeftOut(s: seq<Row>, n: nat, i: nat)
    requires n > 0 && i < |s| && s[i] !in SortDesc(s)[..Min(n, |s|)]
    ensures n < |s| && s[i].1 <= SortDesc(s)[n - 1].1
  {
    SortDescCorrect(s);
    var sorted := SortDesc(s);
    assert s[i] in multiset(s);
    assert s[i] in multiset(sorted);
    var j :| 0 <= j < |sorted| && sorted[j] == s[i];
    assert j >= Min(n, |s|);
  }

  /** The top-ten artists view. */
  function TopArtists(order: seq<string>, scores: map<string, int>): (r: Result<seq<Row>>)
    requires forall k :: 0 <= k < |order| ==> order[k] in scores
  {
    var values := seq(|order|, k requires 0 <= k < |order| => scores[order[k]]);
    match Normalise(order, values)
    case Err(e) => Err(e)
    case Ok(rows) => Ok(TopN(rows, 10))
  }

  /** The whole artist view: accumulate over the table, then rank. */
  function TopArtistsOfEntries(keys: seq<string>, table: map<string, TrackInfo>): Result<seq<Row>>
    requires forall k :: 0 <= k < |keys| ==> keys[k] in table
  {
    var lines := CreditsAsWritten(Entries(keys, table));
    ScoreOrderShape(lines);
    TopArtists(ScoreOrder(lines), Scores(lines))
  }

  /**
   * The top-ten artists from a track table: an error exactly when the table is empty or every
   * score is zero; otherwise at most ten rows, best first, the best reading 100 and
   * all within [0, 100].
   */
  lemma TopArtistsOfTable(keys: seq<string>, table: map<string, TrackInfo>)
    requires forall k :: 0 <= k < |keys| ==> keys[k] in table
    requires forall k :: 0 <= k < |keys| ==> table[keys[k]].popularity >= 0
    ensures var r := TopArtistsOfEntries(keys, table);
      && (r == Err(EmptyCollection) <==> keys == [])
      && (r.Ok? ==> 1 <= |r.value| <= 10 && SortedDesc(r.value) && r.value[0].1 == 100.0
                    && forall k :: 0 <= k < |r.value| ==> 0.0 <= r.value[k].1 <= 100.0)
  {
    var lines := CreditsAsWritten(Entries(keys, table));
    ScoreOrderShape(lines);
    var order, scores := ScoreOrder(lines), Scores(lines);
    var values := seq(|order|, k requires 0 <= k < |order| => scores[order[k]]);
    forall k | 0 <= k < |order| ensures values[k] >= 0 {
      ScoresNonNegative(lines, order[k]);
    }
    if keys != [] {
      var a := Split(ArtistLabel(table[keys[0]]))[0];
      assert a in lines[0].0;
      ScoresMeaning(lines, a);
      assert a in order;
    } else {
      assert lines == [];
    }
    if Normalise(order, values).Ok? {
      var rows := Normalise(order, values).value;
      var k :| 0 <= k < |values| && rows[k].1 == 100.0;
      TopRowsBounded(rows, 10, k);
    }
  }

  /**
   * Taking the best `n` of percentage rows, one of which reads 100: the result is not empty,
   * starts at 100 and stays within [0, 100].
   */
  lemma TopRowsBounded(rows: seq<Row>, n: nat, k: nat)
    requires n > 0 && k < |rows| && rows[k].1 == 100.0
    requires forall i :: 0 <= i < |rows| ==> 0.0 <= rows[i].1 <= 100.0
    ensures var top := TopN(rows, n);
      && 1 <= |top| <= n && top[0].1 == 100.0
      && forall i :: 0 <= i < |top| ==> 0.0 <= top[i].1 <= 100.0
  {
    var top := TopN(rows, n);
    assert multiset(top) <= multiset(rows);
    forall i | 0 <= i < |top| ensures 0.0 <= top[i].1 <= 100.0 {
      assert top[i] in multiset(rows);
    }
    if rows[k] in top {
      var i :| 0 <= i < |top| && top[i] == rows[k];
    }
  }

  /** The top-ten tracks view over the table's name and popularity columns. */
  function TopTracks(names: seq<string>, pops: seq<int>): Result<seq<Row>>
    requires |names| == |pops|
  {
    match Normalise(names, pops)
    case Err(e) => Err(e)
    case Ok(rows) => Ok(TopN(rows, 10))
  }

  /** The top-ten tracks: at most ten rows, best first, each a normalised row of the table. */
  lemma TopTracksShape(names: seq<string>, pops: seq<int>)
    requires |names| == |pops|
    requires forall k :: 0 <= k < |pops| ==> 0 <= pops[k]
    ensures TopTracks(names, pops) == Err(EmptyCollection) <==> pops == []
    ensures TopTracks(names, pops).Ok? ==>
      var r := TopTracks(names, pops).value;
      && |r| == Min(10, |pops|) && SortedDesc(r) && r[0].1 == 100.0
      && multiset(r) <= multiset(Normalise(names, pops).value)
  {
    if Normalise(names, pops).Ok? {
      var rows := Normalise(names, pops).value;
      var top := TopN(rows, 10);
      var k :| 0 <= k < |pops| && rows[k].1 == 100.0;
      if rows[k] in top {
        var i :| 0 <= i < |top| && top[i] == rows[k];
      }
      assert top[0] in multiset(rows);
    }
  }
}

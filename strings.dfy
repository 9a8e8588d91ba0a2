/** String helpers with Python's semantics: `in` on strings, `", ".join` and `.split(", ")`. */
module Strings {

  /** `sub` occurs in `s` starting at position `i` (its first `j` characters already matched). */
  predicate MatchesAt(s: string, sub: string, i: nat, j: nat)
    decreases |sub| - j
  {
    j >= |sub| || (i + j < |s| && s[i + j] == sub[j] && MatchesAt(s, sub, i, j + 1))
  }

  /** `sub` occurs in `s` at some position `i` or later. */
  predicate ContainsFrom(s: string, sub: string, i: nat)
    decreases |s| - i
  {
    MatchesAt(s, sub, i, 0) || (i < |s| && ContainsFrom(s, sub, i + 1))
  }

  /** Python's `sub in s` for strings. */
  predicate Contains(s: string, sub: string)
  {
    ContainsFrom(s, sub, 0)
  }

  /** `sub` sits in `s` at position `k`. */
  predicate OccursAt(s: string, sub: string, k: nat)
  {
    k + |sub| <= |s| && s[k..k + |sub|] == sub
  }

  lemma {:induction false} MatchesAtSlice(s: string, sub: string, i: nat, j: nat)
    requires j <= |sub| && i + j <= |s|
    ensures MatchesAt(s, sub, i, j) <==>
            (i + |sub| <= |s| && s[i + j..i + |sub|] == sub[j..])
    decreases |sub| - j
  {
    if j < |sub| {
      if i + j < |s| {
        MatchesAtSlice(s, sub, i, j + 1);
      }
      if i + |sub| <= |s| {
        assert s[i + j..i + |sub|] == [s[i + j]] + s[i + j + 1..i + |sub|];
        assert sub[j..] == [sub[j]] + sub[j + 1..];
      }
    }
  }

  lemma {:induction false} ContainsFromIff(s: string, sub: string, i: nat)
    requires i <= |s|
    ensures ContainsFrom(s, sub, i) <==> exists k :: i <= k && OccursAt(s, sub, k)
    decreases |s| - i
  {
    MatchesAtSlice(s, sub, i, 0);
    assert MatchesAt(s, sub, i, 0) <==> OccursAt(s, sub, i);
    if i < |s| {
      ContainsFromIff(s, sub, i + 1);
      if exists k :: i <= k && OccursAt(s, sub, k) {
        var k :| i <= k && OccursAt(s, sub, k);
        if k > i {
          assert i + 1 <= k;
        }
      }
    } else {
      if exists k :: i <= k && OccursAt(s, sub, k) {
        var k :| i <= k && OccursAt(s, sub, k);
        assert k == i;
      }
    }
  }

  /** `Contains` is substring containment: some window of `s` equals `sub`. */
  lemma ContainsIff(s: string, sub: string)
    ensures Contains(s, sub) <==> exists k :: 0 <= k && OccursAt(s, sub, k)
  {
    ContainsFromIff(s, sub, 0);
  }

  /** The separator used by the artist column. */
  const Sep: string := ", "

  /** Python's `", ".join(names)`. */
  function Join(names: seq<string>): string
  {
    if names == [] then ""
    else if |names| == 1 then names[0]
    else names[0] + Sep + Join(names[1..])
  }

  /** Python's `s.split(", ")`: the pieces between non-overlapping separators, left to right. */
  function Split(s: string): (r: seq<string>)
    ensures |r| >= 1
  {
    if s == [] then [""]
    else if |s| >= 2 && s[0] == ',' && s[1] == ' ' then [""] + Split(s[2..])
    else
      var rest := Split(s[1..]);
      [[s[0]] + rest[0]] + rest[1..]
  }

  /** The name has no `", "` inside it. */
  predicate NoSep(name: string)
  {
    forall k :: 0 <= k < |name| - 1 ==> !(name[k] == ',' && name[k + 1] == ' ')
  }

  lemma {:induction false} SplitNoSep(a: string)
    requires NoSep(a)
    ensures Split(a) == [a]
  {
    if a != [] {
      assert NoSep(a[1..]);
      SplitNoSep(a[1..]);
      assert [a[0]] + a[1..] == a;
    }
  }

  lemma {:induction false} SplitAfterPiece(a: string, rest: string)
    requires NoSep(a)
    ensures Split(a + Sep + rest) == [a] + Split(rest)
  {
    var s := a + Sep + rest;
    if a == [] {
      assert s[2..] == rest;
    } else {
      assert NoSep(a[1..]);
      SplitAfterPiece(a[1..], rest);
      assert s[1..] == a[1..] + Sep + rest;
      assert !(s[0] == ',' && s[1] == ' ');
      assert [a[0]] + a[1..] == a;
    }
  }

  /** Splitting undoes joining exactly when no name carries the separator. */
  lemma {:induction false} SplitJoin(names: seq<string>)
    requires names != []
    requires forall k :: 0 <= k < |names| ==> NoSep(names[k])
    ensures Split(Join(names)) == names
  {
    if |names| == 1 {
      SplitNoSep(names[0]);
    } else {
      SplitJoin(names[1..]);
      SplitAfterPiece(names[0], Join(names[1..]));
      assert [names[0]] + names[1..] == names;
    }
  }

  /** A single name with the separator inside it comes back from the round trip as two names. */
  lemma {:induction false} SplitJoinBreaksSepName(a: string, b: string)
    requires NoSep(a) && NoSep(b)
    ensures Join([a + Sep + b]) == a + Sep + b
    ensures Split(Join([a + Sep + b])) == [a, b]
  {
    SplitNoSep(b);
    SplitAfterPiece(a, b);
  }
}

/**
 * PreProcessCloud: the range filter applied to a scan before integration.
 *
 * The source culls a std::vector in place with two erase/remove_if passes,
 * first every point farther than max_range, then every point nearer than
 * min_range. Here the vector is an array with a length; RemoveIf is the
 * remove_if compaction and the length it returns is the size left by erase.
 */
module RangeFilter {
  import opened Geometry

  /** The predicate of one remove_if pass. */
  datatype Cull = FartherThan(bound: real) | NearerThan(bound: real)

  predicate Culls(c: Cull, p: Vec3)
  {
    match c
    case FartherThan(r) => NormGreater(p, r)
    case NearerThan(r) => NormLess(p, r)
  }

  /** min_range <= norm(p) <= max_range: the points the filter keeps. */
  predicate InRange(p: Vec3, minRange: real, maxRange: real)
  {
    !NormGreater(p, maxRange) && !NormLess(p, minRange)
  }

  /** The points of s that c does not cull, in their original order. */
  function RemoveAll(s: seq<Vec3>, c: Cull): seq<Vec3>
  {
    if s == [] then []
    else RemoveAll(s[..|s| - 1], c) + (if Culls(c, s[|s| - 1]) then [] else [s[|s| - 1]])
  }

  /** Reference definition of the filter: the in-range points of s, in order. */
  function RangeFiltered(s: seq<Vec3>, minRange: real, maxRange: real): seq<Vec3>
  {
    if s == [] then []
    else RangeFiltered(s[..|s| - 1], minRange, maxRange)
         + (if InRange(s[|s| - 1], minRange, maxRange) then [s[|s| - 1]] else [])
  }

  /** t is s with some elements left out and the rest in their order. */
  ghost predicate IsSubsequence(t: seq<Vec3>, s: seq<Vec3>)
    decreases |s|
  {
    if s == [] then t == []
    else (t != [] && t[|t| - 1] == s[|s| - 1] && IsSubsequence(t[..|t| - 1], s[..|s| - 1]))
         || IsSubsequence(t, s[..|s| - 1])
  }

  /** std::remove_if followed by erase on the first len elements of a. */
  method RemoveIf(a: array<Vec3>, len: nat, c: Cull) returns (n: nat)
    requires len <= a.Length
    modifies a
    ensures n <= len
    ensures a[..n] == RemoveAll(old(a[..len]), c)
  {
    ghost var s := a[..len];
    n := 0;
    var i := 0;
    while i < len
      invariant n <= i <= len
      invariant a[..n] == RemoveAll(s[..i], c)
      invariant forall k :: i <= k < len ==> a[k] == s[k]
    {
      var p := a[i];
      assert s[..i + 1][..i] == s[..i];
      if !Culls(c, p) {
        a[n] := p;
        n := n + 1;
      }
      i := i + 1;
    }
    assert s[..len] == s;
  }

  /** PreProcessCloud: both culls on the first len points; n is the new size. */
  method PreProcessCloud(points: array<Vec3>, len: nat, minRange: real, maxRange: real) returns (n: nat)
    requires len <= points.Length
    modifies points
    ensures n <= len
    ensures points[..n] == RangeFiltered(old(points[..len]), minRange, maxRange)
  {
    var kept := RemoveIf(points, len, FartherThan(maxRange));
    n := RemoveIf(points, kept, NearerThan(minRange));
    TwoCullsAreRangeFilter(old(points[..len]), minRange, maxRange);
  }

  lemma {:induction false} RemoveAllAppend(s: seq<Vec3>, p: Vec3, c: Cull)
    ensures RemoveAll(s + [p], c) == RemoveAll(s, c) + (if Culls(c, p) then [] else [p])
  {
    assert (s + [p])[..|s|] == s;
  }

  /** The two culls, in the source's order, keep exactly the in-range points. */
  lemma {:induction false} TwoCullsAreRangeFilter(s: seq<Vec3>, minRange: real, maxRange: real)
    ensures RemoveAll(RemoveAll(s, FartherThan(maxRange)), NearerThan(minRange))
            == RangeFiltered(s, minRange, maxRange)
  {
    if s != [] {
      var init, p := s[..|s| - 1], s[|s| - 1];
      TwoCullsAreRangeFilter(init, minRange, maxRange);
      var far := RemoveAll(init, FartherThan(maxRange));
      if NormGreater(p, maxRange) {
        assert RemoveAll(s, FartherThan(maxRange)) == far + [] == far;
        assert RangeFiltered(s, minRange, maxRange) == RangeFiltered(init, minRange, maxRange) + [];
      } else {
        assert RemoveAll(s, FartherThan(maxRange)) == far + [p];
        RemoveAllAppend(far, p, NearerThan(minRange));
      }
    }
  }

  /** Culling near points first and far points second gives the same result. */
  lemma {:induction false} CullOrderIrrelevant(s: seq<Vec3>, minRange: real, maxRange: real)
    ensures RemoveAll(RemoveAll(s, NearerThan(minRange)), FartherThan(maxRange))
            == RemoveAll(RemoveAll(s, FartherThan(maxRange)), NearerThan(minRange))
  {
    if s != [] {
      var init, p := s[..|s| - 1], s[|s| - 1];
      CullOrderIrrelevant(init, minRange, maxRange);
      var near, far := RemoveAll(init, NearerThan(minRange)), RemoveAll(init, FartherThan(maxRange));
      if NormLess(p, minRange) {
        assert RemoveAll(s, NearerThan(minRange)) == near + [] == near;
      } else {
        assert RemoveAll(s, NearerThan(minRange)) == near + [p];
        RemoveAllAppend(near, p, FartherThan(maxRange));
      }
      if NormGreater(p, maxRange) {
        assert RemoveAll(s, FartherThan(maxRange)) == far + [] == far;
      } else {
        assert RemoveAll(s, FartherThan(maxRange)) == far + [p];
        RemoveAllAppend(far, p, NearerThan(minRange));
      }
    }
  }

  /** The filter keeps every copy of an in-range point and no copy of any other point. */
  lemma {:induction false} RangeFilteredCounts(s: seq<Vec3>, minRange: real, maxRange: real, p: Vec3)
    ensures multiset(RangeFiltered(s, minRange, maxRange))[p]
            == if InRange(p, minRange, maxRange) then multiset(s)[p] else 0
  {
    if s != [] {
      var init := s[..|s| - 1];
      RangeFilteredCounts(init, minRange, maxRange, p);
      assert s == init + [s[|s| - 1]];
    }
  }

  /** A point is in the result exactly when it is an in-range point of the input. */
  lemma RangeFilteredMembers(s: seq<Vec3>, minRange: real, maxRange: real, p: Vec3)
    ensures p in RangeFiltered(s, minRange, maxRange) <==> p in s && InRange(p, minRange, maxRange)
  {
    RangeFilteredCounts(s, minRange, maxRange, p);
    assert p in RangeFiltered(s, minRange, maxRange) <==> p in multiset(RangeFiltered(s, minRange, maxRange));
    assert p in s <==> p in multiset(s);
  }

  /** The filter keeps the relative order of the points it keeps. */
  lemma {:induction false} RangeFilteredIsSubsequence(s: seq<Vec3>, minRange: real, maxRange: real)
    ensures IsSubsequence(RangeFiltered(s, minRange, maxRange), s)
  {
    if s != [] {
      var init, p := s[..|s| - 1], s[|s| - 1];
      RangeFilteredIsSubsequence(init, minRange, maxRange);
      var r := RangeFiltered(s, minRange, maxRange);
      if InRange(p, minRange, maxRange) {
        assert r[..|r| - 1] == RangeFiltered(init, minRange, maxRange);
      } else {
        assert r == RangeFiltered(init, minRange, maxRange) + [] == RangeFiltered(init, minRange, maxRange);
      }
    }
  }

  /** Every point the filter returns is in range. */
  lemma {:induction false} RangeFilteredInRange(s: seq<Vec3>, minRange: real, maxRange: real)
    ensures forall q :: q in RangeFiltered(s, minRange, maxRange) ==> InRange(q, minRange, maxRange)
  {
    forall q | q in RangeFiltered(s, minRange, maxRange)
      ensures InRange(q, minRange, maxRange)
    {
      RangeFilteredMembers(s, minRange, maxRange, q);
    }
  }

  /** With min_range > max_range every point is culled. */
  lemma {:induction false} InvertedRangeIsEmpty(s: seq<Vec3>, minRange: real, maxRange: real)
    requires minRange > maxRange
    ensures RangeFiltered(s, minRange, maxRange) == []
  {
    if s != [] {
      InvertedRangeIsEmpty(s[..|s| - 1], minRange, maxRange);
      NoNormBetweenInvertedBounds(s[|s| - 1], minRange, maxRange);
    }
  }

  /** Filtering a second time changes nothing. */
  lemma {:induction false} RangeFilterIdempotent(s: seq<Vec3>, minRange: real, maxRange: real)
    ensures RangeFiltered(RangeFiltered(s, minRange, maxRange), minRange, maxRange)
            == RangeFiltered(s, minRange, maxRange)
  {
    if s != [] {
      var init, p := s[..|s| - 1], s[|s| - 1];
      RangeFilterIdempotent(init, minRange, maxRange);
      var r := RangeFiltered(init, minRange, maxRange);
      if InRange(p, minRange, maxRange) {
        assert RangeFiltered(s, minRange, maxRange) == r + [p];
        assert (r + [p])[..|r|] == r;
      } else {
        assert RangeFiltered(s, minRange, maxRange) == r + [] == r;
      }
    }
  }

  /** A point whose norm equals either bound is kept: both culls are strict. */
  lemma BoundsAreKept(p: Vec3, n: real, minRange: real, maxRange: real)
    requires IsNorm(p, n) && minRange <= n <= maxRange
    ensures InRange(p, minRange, maxRange)
  {
    NormGreaterMeans(p, n, maxRange);
    NormLessMeans(p, n, minRange);
  }

  /** InRange is exactly min_range <= norm <= max_range. */
  lemma InRangeMeans(p: Vec3, n: real, minRange: real, maxRange: real)
    requires IsNorm(p, n)
    ensures InRange(p, minRange, maxRange) <==> minRange <= n <= maxRange
  {
    NormGreaterMeans(p, n, maxRange);
    NormLessMeans(p, n, minRange);
  }

  /** Points at norms 0.5, 2.0, 9.9 and 15.0 with bounds 1.0 and 10.0 leave 2.0 and 9.9. */
  lemma FilterExample()
    ensures RangeFiltered([Vec3(0.5, 0.0, 0.0), Vec3(2.0, 0.0, 0.0), Vec3(9.9, 0.0, 0.0), Vec3(15.0, 0.0, 0.0)], 1.0, 10.0)
            == [Vec3(2.0, 0.0, 0.0), Vec3(9.9, 0.0, 0.0)]
  {
    var s := [Vec3(0.5, 0.0, 0.0), Vec3(2.0, 0.0, 0.0), Vec3(9.9, 0.0, 0.0), Vec3(15.0, 0.0, 0.0)];
    assert s[..2][..1] == s[..1] && s[..3][..2] == s[..2] && s[..3] == s[..|s| - 1];
    assert RangeFiltered(s[..1], 1.0, 10.0) == [];
    assert RangeFiltered(s[..2], 1.0, 10.0) == [s[1]];
    assert RangeFiltered(s[..3], 1.0, 10.0) == [s[1], s[2]];
  }
}

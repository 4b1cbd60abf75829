/**
 * Aligning the two sensor streams: the Sentinel-1 composites (primary) are
 * inner-joined with the Sentinel-2 composites (secondary) on equal
 * `system:time_start`, and each matched pair is concatenated into one image.
 */
module Aligner {
  import opened Wrappers
  import opened BandNames
  import opened Raster
  import opened Collection

  /**
   * `ee.Join.inner().apply(s1, s2, equals(system:time_start))` mapped with
   * `ee.Image.cat(primary, secondary)`: one image per matched pair, carrying the
   * primary's start and properties.
   */
  function Joined(s1: seq<Timed>, s2: seq<Timed>): seq<Timed>
  {
    var pairs := InnerJoin(s1, s2);
    seq(|pairs|, k requires 0 <= k < |pairs| =>
      Timed(pairs[k].primary.start, Cat(pairs[k].primary.image, pairs[k].secondary.image), pairs[k].primary.doy))
  }

  /** An interval is in the joined collection exactly when both sensors have an image that starts then. */
  lemma JoinedStarts(s1: seq<Timed>, s2: seq<Timed>, t: int)
    ensures t in Starts(Joined(s1, s2)) <==> t in Starts(s1) && t in Starts(s2)
  {
    var pairs := InnerJoin(s1, s2);
    var joined := Joined(s1, s2);
    if t in Starts(joined) {
      var k :| 0 <= k < |joined| && Starts(joined)[k] == t;
      assert pairs[k] in pairs;
      var i :| 0 <= i < |s1| && s1[i] == pairs[k].primary;
      var j :| 0 <= j < |s2| && s2[j] == pairs[k].secondary;
      assert Starts(s1)[i] == t && Starts(s2)[j] == t;
    }
    if t in Starts(s1) && t in Starts(s2) {
      var i :| 0 <= i < |s1| && Starts(s1)[i] == t;
      var j :| 0 <= j < |s2| && Starts(s2)[j] == t;
      assert Pair(s1[i], s2[j]) in pairs;
      var k :| 0 <= k < |pairs| && pairs[k] == Pair(s1[i], s2[j]);
      assert Starts(joined)[k] == t;
    }
  }

  /** Images whose band lists share no name have disjoint name sets. */
  lemma ListsDisjoint(a: Image, b: Image, n1: seq<string>, n2: seq<string>)
    requires NamesOf(a) == n1 && NamesOf(b) == n2
    requires forall x, y :: x in n1 && y in n2 ==> x != y
    ensures NameSet(a) !! NameSet(b)
  {
    forall x | x in NameSet(a) ensures x !in NameSet(b) {
      NameSetMember(a, x);
      NameSetMember(b, x);
      var i :| 0 <= i < |a| && a[i].name == x;
      assert n1[i] in n1;
      forall j | 0 <= j < |b| ensures b[j].name != x {
        assert n2[j] in n2;
      }
    }
  }

  /** An image whose band list has distinct names has distinct names. */
  lemma ListDistinct(b: Image, n2: seq<string>)
    requires NamesOf(b) == n2 && DistinctSeq(n2)
    ensures DistinctNames(b)
  {
    forall i, j | 0 <= i < j < |b| ensures b[i].name != b[j].name {
      assert n2[i] != n2[j];
    }
  }

  /** Concatenating images whose band lists share no name keeps every name. */
  lemma CatOfLists(a: Image, b: Image, n1: seq<string>, n2: seq<string>)
    requires NamesOf(a) == n1 && NamesOf(b) == n2
    requires DistinctSeq(n2)
    requires forall x, y :: x in n1 && y in n2 ==> x != y
    ensures Cat(a, b) == a + b
    ensures NamesOf(Cat(a, b)) == n1 + n2
  {
    ListsDisjoint(a, b, n1, n2);
    ListDistinct(b, n2);
    CatDisjoint(a, b);
    assert NamesOf(a + b) == NamesOf(a) + NamesOf(b);
  }

  /**
   * With the Sentinel-1 composites carrying the bands `n1` and the Sentinel-2
   * composites the bands `n2` (distinct names, none shared), every joined image
   * holds the primary's bands followed by the secondary's, unrenamed.
   */
  lemma JoinedBands(s1: seq<Timed>, s2: seq<Timed>, n1: seq<string>, n2: seq<string>)
    requires Uniform(s1, n1) && Uniform(s2, n2)
    requires DistinctSeq(n2)
    requires forall a, b :: a in n1 && b in n2 ==> a != b
    ensures |Joined(s1, s2)| == |InnerJoin(s1, s2)|
    ensures forall k :: 0 <= k < |Joined(s1, s2)| ==>
      Joined(s1, s2)[k].image == InnerJoin(s1, s2)[k].primary.image + InnerJoin(s1, s2)[k].secondary.image
    ensures Uniform(Joined(s1, s2), n1 + n2)
  {
    var pairs := InnerJoin(s1, s2);
    var joined := Joined(s1, s2);
    forall k | 0 <= k < |pairs|
      ensures joined[k].image == pairs[k].primary.image + pairs[k].secondary.image
      ensures NamesOf(joined[k].image) == n1 + n2
    {
      assert pairs[k] in pairs;
      CatOfLists(pairs[k].primary.image, pairs[k].secondary.image, n1, n2);
    }
    forall x | x in joined ensures NamesOf(x.image) == n1 + n2 {
      var k :| 0 <= k < |joined| && joined[k] == x;
    }
  }

  /** Every pair of `InnerJoin(ps, ss)` has a primary of `ps`. */
  lemma JoinPrimaries(ps: seq<Timed>, ss: seq<Timed>, k: nat)
    requires k < |InnerJoin(ps, ss)|
    ensures InnerJoin(ps, ss)[k].primary in ps
    ensures InnerJoin(ps, ss)[k].primary.start == InnerJoin(ps, ss)[k].secondary.start
  {
    assert InnerJoin(ps, ss)[k] in InnerJoin(ps, ss);
  }

  /** Joining primaries in increasing order with secondaries of distinct starts gives increasing starts. */
  lemma {:induction false} InnerJoinIncreasing(ps: seq<Timed>, ss: seq<Timed>)
    requires StrictlyIncreasing(ps) && DistinctStarts(ss)
    ensures forall i, j :: 0 <= i < j < |InnerJoin(ps, ss)| ==>
      InnerJoin(ps, ss)[i].primary.start < InnerJoin(ps, ss)[j].primary.start
  {
    if ps != [] {
      var head, tail := MatchesOf(ps[0], ss), InnerJoin(ps[1..], ss);
      InnerJoinIncreasing(ps[1..], ss);
      assert InnerJoin(ps, ss) == head + tail;
      forall j | 0 <= j < |tail| ensures ps[0].start < tail[j].primary.start {
        JoinPrimaries(ps[1..], ss, j);
      }
      assert |head| <= 1;
      forall i | 0 <= i < |head| ensures head[i].primary == ps[0] {
        assert head[i] in head;
      }
    }
  }

  /** Joining primaries of distinct starts with secondaries of distinct starts gives distinct starts. */
  lemma {:induction false} InnerJoinDistinct(ps: seq<Timed>, ss: seq<Timed>)
    requires DistinctStarts(ps) && DistinctStarts(ss)
    ensures forall i, j :: 0 <= i < j < |InnerJoin(ps, ss)| ==>
      InnerJoin(ps, ss)[i].primary.start != InnerJoin(ps, ss)[j].primary.start
  {
    if ps != [] {
      var head, tail := MatchesOf(ps[0], ss), InnerJoin(ps[1..], ss);
      InnerJoinDistinct(ps[1..], ss);
      assert InnerJoin(ps, ss) == head + tail;
      forall j | 0 <= j < |tail| ensures ps[0].start != tail[j].primary.start {
        JoinPrimaries(ps[1..], ss, j);
      }
      assert |head| <= 1;
      forall i | 0 <= i < |head| ensures head[i].primary == ps[0] {
        assert head[i] in head;
      }
    }
  }

  /** In-order Sentinel-1 composites joined with distinct-dated Sentinel-2 composites stay in order. */
  lemma JoinedIncreasing(s1: seq<Timed>, s2: seq<Timed>)
    requires StrictlyIncreasing(s1) && DistinctStarts(s2)
    ensures StrictlyIncreasing(Joined(s1, s2))
  {
    InnerJoinIncreasing(s1, s2);
  }

  /** A sequence of distinct numbers has as many elements as its set. */
  lemma {:induction false} DistinctCard(xs: seq<int>)
    requires forall i, j :: 0 <= i < j < |xs| ==> xs[i] != xs[j]
    ensures |set x | x in xs| == |xs|
  {
    if xs != [] {
      DistinctCard(xs[1..]);
      assert (set x | x in xs) == {xs[0]} + (set x | x in xs[1..]);
    }
  }

  lemma {:induction false} SetCard(xs: seq<int>)
    ensures |set x | x in xs| <= |xs|
  {
    if xs != [] {
      SetCard(xs[1..]);
      assert (set x | x in xs) == {xs[0]} + (set x | x in xs[1..]);
    }
  }

  lemma SubsetCard(a: set<int>, b: set<int>)
    requires a <= b
    ensures |a| <= |b|
  {
    assert b == a + (b - a);
    assert a * (b - a) == {};
  }

  /**
   * When each sensor has at most one composite per start, the joined collection
   * is no longer than either input and has distinct starts.
   */
  lemma JoinedSize(s1: seq<Timed>, s2: seq<Timed>)
    requires DistinctStarts(s1) && DistinctStarts(s2)
    ensures DistinctStarts(Joined(s1, s2))
    ensures |Joined(s1, s2)| <= |s1| && |Joined(s1, s2)| <= |s2|
  {
    var joined := Joined(s1, s2);
    InnerJoinDistinct(s1, s2);
    var js, ts := Starts(joined), Starts(s2);
    DistinctCard(js);
    SetCard(ts);
    forall t | t in js ensures t in ts {
      JoinedStarts(s1, s2, t);
    }
    SubsetCard(set x | x in js, set x | x in ts);
  }
}

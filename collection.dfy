/**
 * Earth Engine image-collection primitives used by the fusion stage:
 * `filterDate`, `mean`, the inner join on `system:time_start`, and `sort`.
 */
module Collection {
  import opened Wrappers
  import opened Raster

  /**
   * One image of a collection: its `system:time_start` as a day number, its
   * bands, and its `doy` property when one has been set.
   */
  datatype Timed = Timed(start: int, image: Image, doy: Option<int>)

  /** The `system:time_start` of every image, in collection order. */
  function Starts(c: seq<Timed>): (r: seq<int>)
    ensures |r| == |c|
    ensures forall i :: 0 <= i < |c| ==> r[i] == c[i].start
  {
    seq(|c|, i requires 0 <= i < |c| => c[i].start)
  }

  /** Every image of `c` has exactly the bands `names`, in that order. */
  predicate Uniform(c: seq<Timed>, names: seq<string>)
  {
    forall k :: 0 <= k < |c| ==> NamesOf(c[k].image) == names
  }

  /** An image of a uniform collection carries its bands. */
  lemma UniformMember(c: seq<Timed>, names: seq<string>, x: Timed)
    requires Uniform(c, names) && x in c
    ensures NamesOf(x.image) == names && |x.image| == |names|
  {
    var k :| 0 <= k < |c| && c[k] == x;
  }

  predicate DistinctStarts(c: seq<Timed>)
  {
    forall i, j :: 0 <= i < j < |c| ==> c[i].start != c[j].start
  }

  predicate StrictlyIncreasing(c: seq<Timed>)
  {
    forall i, j :: 0 <= i < j < |c| ==> c[i].start < c[j].start
  }

  predicate SortedByStart(c: seq<Timed>)
  {
    forall i, j :: 0 <= i < j < |c| ==> c[i].start <= c[j].start
  }

  // ---------------------------------------------------------------------------
  // ImageCollection.filterDate
  // ---------------------------------------------------------------------------

  /** `c.filterDate(lo, hi)`: the images whose start lies in `[lo, hi)`, in collection order. */
  function FilterDate(c: seq<Timed>, lo: int, hi: int): (r: seq<Timed>)
    ensures forall x {:trigger x in r} {:trigger x in c} :: x in r <==> x in c && lo <= x.start < hi
    ensures |r| <= |c|
  {
    if c == [] then []
    else if lo <= c[0].start < hi then [c[0]] + FilterDate(c[1..], lo, hi)
    else FilterDate(c[1..], lo, hi)
  }

  /** The images of `c` whose start lies in `[lo, hi)` are exactly those at positions `a` to `b - 1`. */
  predicate InRangeExactly(c: seq<Timed>, lo: int, hi: int, a: nat, b: nat)
  {
    forall i :: 0 <= i < |c| ==> (lo <= c[i].start < hi <==> a <= i < b)
  }

  function Pred(n: nat): nat
  {
    if n == 0 then 0 else n - 1
  }

  /** Dropping the first image shifts the exact range down by one position. */
  lemma InRangeTail(c: seq<Timed>, lo: int, hi: int, a: nat, b: nat)
    requires c != [] && InRangeExactly(c, lo, hi, a, b)
    ensures InRangeExactly(c[1..], lo, hi, Pred(a), Pred(b))
    ensures (lo <= c[0].start < hi) == (a == 0 && b > 0)
  {
    forall i | 0 <= i < |c| - 1
      ensures lo <= c[1..][i].start < hi <==> Pred(a) <= i < Pred(b)
    {
      assert c[1..][i] == c[i + 1];
    }
  }

  /** A slice starting at 0 is the first element followed by the slice of the rest. */
  lemma SliceTail(c: seq<Timed>, a: nat, b: nat)
    requires a <= b <= |c| && c != []
    ensures a == 0 && b > 0 ==> c[a..b] == [c[0]] + c[1..][Pred(a)..Pred(b)]
    ensures !(a == 0 && b > 0) ==> c[a..b] == c[1..][Pred(a)..Pred(b)]
  {
    if a == 0 && b > 0 {
      assert c[1..][0..b - 1] == c[1..b];
      assert c[0..b] == [c[0]] + c[1..b];
    } else if a > 0 {
      assert c[1..][a - 1..b - 1] == c[a..b];
    }
  }

  /** When the images in `[lo, hi)` are exactly those at positions `a` to `b - 1`, the filter is that slice. */
  lemma {:induction false} FilterDateSlice(c: seq<Timed>, lo: int, hi: int, a: nat, b: nat)
    requires a <= b <= |c|
    requires InRangeExactly(c, lo, hi, a, b)
    ensures FilterDate(c, lo, hi) == c[a..b]
  {
    if c != [] {
      InRangeTail(c, lo, hi, a, b);
      FilterDateSlice(c[1..], lo, hi, Pred(a), Pred(b));
      SliceTail(c, a, b);
    }
  }

  // ---------------------------------------------------------------------------
  // ImageCollection.mean
  // ---------------------------------------------------------------------------

  /** The value of the first band of `img` called `name`; masked when there is none. */
  function Lookup(img: Image, name: string): (v: Option<real>)
    ensures name !in NameSet(img) ==> v.None?
  {
    if img == [] then None
    else if img[0].name == name then img[0].value
    else Lookup(img[1..], name)
  }

  /** In an image with distinct names, a band is found under its own name. */
  lemma {:induction false} LookupDistinct(img: Image, i: nat)
    requires DistinctNames(img) && i < |img|
    ensures Lookup(img, img[i].name) == img[i].value
  {
    if i > 0 {
      LookupDistinct(img[1..], i - 1);
    }
  }

  /** In an image with distinct names, a band of the image is present and found under its name. */
  lemma LookupMember(img: Image, b: Band)
    requires DistinctNames(img) && b in img
    ensures b.name in NameSet(img)
    ensures Lookup(img, b.name) == b.value
  {
    var k :| 0 <= k < |img| && img[k] == b;
    LookupDistinct(img, k);
  }

  /** The valid values of band `name` across `window`, in collection order. */
  function Contributions(window: seq<Timed>, name: string): (vs: seq<real>)
    ensures |vs| <= |window|
    ensures vs == [] <==> forall x {:trigger x in window} :: x in window ==> Lookup(x.image, name).None?
    ensures forall v :: v in vs ==> exists x {:trigger x in window} :: x in window && Lookup(x.image, name) == Some(v)
  {
    if window == [] then []
    else
      var rest := Contributions(window[1..], name);
      assert forall x :: x in window <==> x == window[0] || x in window[1..];
      assert window[0] in window;
      match Lookup(window[0].image, name)
      case Some(v) => [v] + rest
      case None => rest
  }

  /** The positions of the images of `window` where band `name` is valid. */
  function ValidAt(window: seq<Timed>, name: string): set<int>
  {
    set k | 0 <= k < |window| && Lookup(window[k].image, name).Some?
  }

  /** Every position of `s` moved one place on. */
  function Shift(s: set<int>): set<int>
  {
    set j | j in s :: j + 1
  }

  /** A position is in the moved set exactly when the one before it is in `s`. */
  lemma ShiftMember(s: set<int>, k: int)
    ensures k in Shift(s) <==> k - 1 in s
  {
    if k - 1 in s {
      assert k == (k - 1) + 1;
    }
  }

  /** Moving every position below `n` one place on keeps the number of positions. */
  lemma {:induction false} ShiftCard(s: set<int>, n: nat)
    requires forall k :: k in s ==> 0 <= k < n
    ensures |Shift(s)| == |s|
  {
    if n == 0 {
      assert forall k :: k in s <==> k in {};
      assert s == {};
      forall k ensures k !in Shift(s) {
        ShiftMember(s, k);
      }
      assert forall k :: k in Shift(s) <==> k in {};
      assert Shift(s) == {};
    } else {
      var below := s - {n - 1};
      ShiftCard(below, n - 1);
      if n - 1 in s {
        forall k ensures k in Shift(s) <==> k in Shift(below) + {n} {
          ShiftMember(s, k);
          ShiftMember(below, k);
        }
        assert Shift(s) == Shift(below) + {n};
        ShiftMember(below, n);
        assert s == below + {n - 1};
      } else {
        assert s == below;
      }
    }
  }

  /** The positions of `window` where `name` is valid, from the second image on, in `window`'s numbering. */
  lemma ValidAtTail(window: seq<Timed>, name: string)
    requires window != []
    ensures ValidAt(window, name) ==
      (if Lookup(window[0].image, name).Some? then {0} else {}) + Shift(ValidAt(window[1..], name))
    ensures 0 !in Shift(ValidAt(window[1..], name))
  {
    var rest := window[1..];
    forall k ensures k in ValidAt(window, name) <==>
      k in (if Lookup(window[0].image, name).Some? then {0} else {}) + Shift(ValidAt(rest, name))
    {
      ShiftMember(ValidAt(rest, name), k);
      if 1 <= k < |window| {
        assert window[k] == rest[k - 1];
      }
    }
    ShiftMember(ValidAt(rest, name), 0);
  }

  /**
   * Every valid value of band `name` in the window contributes to the mean, and
   * the window contributes exactly one value per image where the band is valid.
   */
  lemma {:induction false} ContributionsComplete(window: seq<Timed>, name: string)
    ensures forall x {:trigger x in window} :: x in window && Lookup(x.image, name).Some? ==>
      Lookup(x.image, name).value in Contributions(window, name)
    ensures |Contributions(window, name)| == |ValidAt(window, name)|
  {
    if window != [] {
      var rest := window[1..];
      ContributionsComplete(rest, name);
      ShiftCard(ValidAt(rest, name), |rest|);
      ValidAtTail(window, name);
      forall x | x in window && Lookup(x.image, name).Some?
        ensures Lookup(x.image, name).value in Contributions(window, name)
      {
        if x != window[0] {
          assert x in rest;
        }
      }
    }
  }

  function Sum(vs: seq<real>): real
  {
    if vs == [] then 0.0 else vs[0] + Sum(vs[1..])
  }

  /** Arithmetic mean of the valid values; masked when there are none. */
  function MeanOf(vs: seq<real>): (m: Option<real>)
    ensures m.None? <==> vs == []
  {
    if vs == [] then None else Some(Sum(vs) / (|vs| as real))
  }

  lemma {:induction false} SumWithin(vs: seq<real>, lo: real, hi: real)
    requires forall i :: 0 <= i < |vs| ==> lo <= vs[i] <= hi
    ensures (|vs| as real) * lo <= Sum(vs) <= (|vs| as real) * hi
  {
    if vs != [] {
      SumWithin(vs[1..], lo, hi);
    }
  }

  lemma DivAtLeast(s: real, n: real, lo: real)
    requires n > 0.0 && n * lo <= s
    ensures lo <= s / n
  {
    var q := s / n;
    assert q * n == s;
    if q < lo {
      assert q * n < lo * n;
    }
  }

  lemma DivAtMost(s: real, n: real, hi: real)
    requires n > 0.0 && s <= n * hi
    ensures s / n <= hi
  {
    var q := s / n;
    assert q * n == s;
    if q > hi {
      assert q * n > hi * n;
    }
  }

  /** The mean of values that all lie between `lo` and `hi` lies between them too. */
  lemma MeanWithin(vs: seq<real>, lo: real, hi: real)
    requires vs != []
    requires forall i :: 0 <= i < |vs| ==> lo <= vs[i] <= hi
    ensures lo <= MeanOf(vs).value <= hi
  {
    SumWithin(vs, lo, hi);
    DivAtLeast(Sum(vs), |vs| as real, lo);
    DivAtMost(Sum(vs), |vs| as real, hi);
  }

  /** `ImageCollection.mean()`: for every band of the first image, the mean of its valid values. */
  function Mean(window: seq<Timed>): (r: Image)
    ensures window == [] ==> r == []
    ensures window != [] ==> NamesOf(r) == NamesOf(window[0].image)
    ensures window != [] ==> forall i :: 0 <= i < |r| ==>
      (r[i].value.None? <==> forall x {:trigger x in window} :: x in window ==> Lookup(x.image, r[i].name).None?)
    ensures window != [] ==> forall i :: 0 <= i < |r| ==>
      r[i].value == MeanOf(Contributions(window, r[i].name))
  {
    if window == [] then []
    else
      var first := window[0].image;
      seq(|first|, i requires 0 <= i < |first| =>
        Band(first[i].name, MeanOf(Contributions(window, first[i].name))))
  }

  // ---------------------------------------------------------------------------
  // Join.inner with Filter.equals on system:time_start
  // ---------------------------------------------------------------------------

  /** One result of the join: its `primary` and `secondary` image. */
  datatype Pair = Pair(primary: Timed, secondary: Timed)

  /** The pairs `p` forms with the images of `ss` that share its start, in `ss` order. */
  function MatchesOf(p: Timed, ss: seq<Timed>): (r: seq<Pair>)
    ensures forall q {:trigger q in r} :: q in r <==> q.primary == p && q.secondary in ss && q.secondary.start == p.start
    ensures (forall s {:trigger s in ss} :: s in ss ==> s.start != p.start) ==> r == []
    ensures DistinctStarts(ss) ==> |r| <= 1
  {
    if ss == [] then []
    else
      var rest := MatchesOf(p, ss[1..]);
      if ss[0].start == p.start then
        assert ss[0] in ss;
        assert DistinctStarts(ss) ==> forall s :: s in ss[1..] ==> s.start != p.start;
        [Pair(p, ss[0])] + rest
      else
        assert forall s :: s in ss[1..] ==> s in ss;
        rest
  }

  /** `Join.inner().apply(ps, ss, equals(system:time_start))`: every matching pair, primary-major. */
  function InnerJoin(ps: seq<Timed>, ss: seq<Timed>): (r: seq<Pair>)
    ensures forall q {:trigger q in r} :: q in r <==>
      q.primary in ps && q.secondary in ss && q.primary.start == q.secondary.start
    ensures DistinctStarts(ss) ==> |r| <= |ps|
  {
    if ps == [] then []
    else
      assert forall x :: x in ps <==> x == ps[0] || x in ps[1..];
      MatchesOf(ps[0], ss) + InnerJoin(ps[1..], ss)
  }

  // ---------------------------------------------------------------------------
  // ImageCollection.sort('system:time_start')
  // ---------------------------------------------------------------------------

  /** Prepending an image no later than every other keeps a collection sorted. */
  lemma PrependSorted(y: Timed, c: seq<Timed>)
    requires SortedByStart(c)
    requires forall k :: 0 <= k < |c| ==> y.start <= c[k].start
    ensures SortedByStart([y] + c)
  {
  }

  /** An image no later than `x` and every image of `c` is no later than any image of a reordering of `c` and `x`. */
  lemma LaterThanAll(y: Timed, c: seq<Timed>, x: Timed, rest: seq<Timed>)
    requires forall k :: 0 <= k < |c| ==> y.start <= c[k].start
    requires y.start <= x.start
    requires multiset(rest) == multiset(c) + multiset{x}
    ensures forall k :: 0 <= k < |rest| ==> y.start <= rest[k].start
  {
    forall k | 0 <= k < |rest| ensures y.start <= rest[k].start {
      assert rest[k] in multiset(rest);
      if rest[k] != x {
        assert rest[k] in multiset(c);
        var j :| 0 <= j < |c| && c[j] == rest[k];
      }
    }
  }

  /** Places `x` before the first image that starts no earlier than `x`. */
  function Insert(x: Timed, c: seq<Timed>): (r: seq<Timed>)
    requires SortedByStart(c)
    ensures SortedByStart(r)
    ensures multiset(r) == multiset(c) + multiset{x}
  {
    if c == [] || x.start <= c[0].start then
      PrependSorted(x, c);
      [x] + c
    else
      var rest := Insert(x, c[1..]);
      LaterThanAll(c[0], c[1..], x, rest);
      PrependSorted(c[0], rest);
      assert c == [c[0]] + c[1..];
      [c[0]] + rest
  }

  /** Ascending sort on `system:time_start`; images with equal starts keep their order. */
  function Sort(c: seq<Timed>): (r: seq<Timed>)
    ensures SortedByStart(r)
    ensures multiset(r) == multiset(c)
  {
    if c == [] then []
    else
      assert c == [c[0]] + c[1..];
      Insert(c[0], Sort(c[1..]))
  }

  /** Sorting a collection that is already in order leaves it unchanged. */
  lemma {:induction false} SortOfSorted(c: seq<Timed>)
    requires SortedByStart(c)
    ensures Sort(c) == c
  {
    if c != [] {
      SortOfSorted(c[1..]);
      assert c == [c[0]] + c[1..];
    }
  }
}

/**
 * The windowed gap-fill applied to every joined image: masked pixels take the
 * mean of the joined images within AGG_INTERVAL + 1 days, what is still masked
 * becomes 0, and a `doy` band and property record the day offset from 1 January
 * of the start year.
 */
module GapFiller {
  import opened Wrappers
  import opened BandNames
  import opened Raster
  import opened Collection
  import opened Dates
  import opened Config

  /**
   * `joined.filterDate(t.advance(-AGG_INTERVAL - 1, 'day'), t.advance(AGG_INTERVAL + 1, 'day'))`:
   * the joined images starting from 11 days before `t` up to, but excluding, 11 days after it.
   */
  function Window(joined: seq<Timed>, t: int): (w: seq<Timed>)
    ensures forall x {:trigger x in w} {:trigger x in joined} :: x in w <==> x in joined && t - 11 <= x.start < t + 11
    ensures forall x {:trigger x in joined} :: x in joined && x.start == t ==> x in w
  {
    FilterDate(joined, t - AGG_INTERVAL - 1, t + AGG_INTERVAL + 1)
  }

  /** The `doy` band: the day offset as a constant image named `doy`, cast to Int16. */
  function DoyBand(ddiff: int): Band
  {
    Band(DOY_BAND, Some(ddiff as real))
  }

  /**
   * The mapped function of the gap-fill for one joined image `x`:
   * `meanImage.where(x, x).unmask(0).addBands(doy).set('doy', ddiff)`, keeping
   * `x`'s `system:time_start`. The window is read from the unfilled collection.
   */
  function FillOne(x: Timed, joined: seq<Timed>, startYear: int): (r: Result<Timed, Error>)
    ensures r.Ok? <==> Fits(x.image, Mean(Window(joined, x.start)))
    ensures r.Ok? ==> r.value.start == x.start && r.value.doy == Some(DayOffset(x.start, startYear))
    ensures r.Ok? ==> |r.value.image| == |Mean(Window(joined, x.start))| + 1
    ensures r.Err? ==> r.error == BandCountMismatch
  {
    var meanImage := Mean(Window(joined, x.start));
    var kept :- Where(meanImage, x.image, x.image);
    var ddiff := DayOffset(x.start, startYear);
    Ok(Timed(x.start, AddBands(Unmask(kept, 0.0), [DoyBand(ddiff)]), Some(ddiff)))
  }

  /** `c.map(FillOne)`: fails when any image fails, otherwise fills every image in place. */
  function FillAll(c: seq<Timed>, joined: seq<Timed>, startYear: int): (r: Result<seq<Timed>, Error>)
    ensures r.Ok? <==> forall k :: 0 <= k < |c| ==> FillOne(c[k], joined, startYear).Ok?
    ensures r.Ok? ==> |r.value| == |c|
    ensures r.Ok? ==> forall k :: 0 <= k < |c| ==> r.value[k] == FillOne(c[k], joined, startYear).value
    ensures r.Err? ==> exists k :: 0 <= k < |c| && FillOne(c[k], joined, startYear) == Err(r.error)
  {
    MapAll(c, x => FillOne(x, joined, startYear))
  }

  /** The gap-fill `map` over the joined collection, each window read from the unfilled `joined`. */
  function GapFill(joined: seq<Timed>, startYear: int): Result<seq<Timed>, Error>
  {
    FillAll(joined, joined, startYear)
  }

  // ---------------------------------------------------------------------------
  // The fill rule
  // ---------------------------------------------------------------------------

  /**
   * The fill rule stated on its own: a valid, non-zero own value is kept;
   * otherwise the window mean is used where there is one; otherwise 0.
   */
  function FillRule(own: Option<real>, mean: Option<real>): real
  {
    if own.Some? && own.value != 0.0 then own.value
    else if mean.Some? then mean.value
    else 0.0
  }

  /** In images carrying the bands `names` (distinct), band `i` is found under its name. */
  lemma LookupUniform(img: Image, names: seq<string>, i: nat)
    requires NamesOf(img) == names && DistinctSeq(names) && i < |names|
    ensures Lookup(img, names[i]) == img[i].value
  {
    assert DistinctNames(img) by {
      forall p, q | 0 <= p < q < |img| ensures img[p].name != img[q].name {
        assert names[p] != names[q];
      }
    }
    LookupDistinct(img, i);
  }

  /**
   * Over a collection whose images all carry `names`, the window mean of an image
   * of that collection carries `names` too, and has a value wherever the image does.
   */
  lemma WindowMean(x: Timed, joined: seq<Timed>, names: seq<string>)
    requires Uniform(joined, names) && DistinctSeq(names) && x in joined
    ensures Window(joined, x.start) != []
    ensures NamesOf(Mean(Window(joined, x.start))) == names
    ensures forall i :: 0 <= i < |names| ==>
      Mean(Window(joined, x.start))[i].value == MeanOf(Contributions(Window(joined, x.start), names[i]))
    ensures forall i :: 0 <= i < |names| && x.image[i].value.Some? ==>
      Contributions(Window(joined, x.start), names[i]) != []
  {
    var w := Window(joined, x.start);
    assert x in w;
    assert w[0] in w;
    forall i | 0 <= i < |names| && x.image[i].value.Some?
      ensures Contributions(w, names[i]) != []
    {
      LookupUniform(x.image, names, i);
    }
  }

  /** `where` between images carrying the same bands succeeds and works band by band. */
  lemma WhereSameBands(input: Image, img: Image, names: seq<string>)
    requires NamesOf(input) == names && NamesOf(img) == names
    ensures Where(input, img, img).Ok?
    ensures NamesOf(Where(input, img, img).value) == names
    ensures forall i :: 0 <= i < |names| ==>
      Where(input, img, img).value[i].value == WherePixel(input[i].value, img[i].value, img[i].value)
  {
    forall i | 0 <= i < |names| ensures Partner(img, i) == img[i] { }
  }

  /** Adding the `doy` band to an image without a `doy` band appends it unrenamed. */
  lemma AppendDoy(u: Image, names: seq<string>, ddiff: int)
    requires NamesOf(u) == names && DOY_BAND !in names
    ensures AddBands(u, [DoyBand(ddiff)]) == u + [DoyBand(ddiff)]
  {
    assert NameSet(u) !! NameSet([DoyBand(ddiff)]) by {
      NameSetMember(u, DOY_BAND);
      forall i | 0 <= i < |u| ensures u[i].name != DOY_BAND {
        assert u[i].name == names[i];
      }
    }
    CatDisjoint(u, [DoyBand(ddiff)]);
  }

  /** One pixel of `mean.where(own, own).unmask(0)` follows the fill rule when a valid own value implies a mean. */
  lemma FillRulePixel(mean: Option<real>, own: Option<real>)
    requires own.Some? ==> mean.Some?
    ensures (var p := WherePixel(mean, own, own); if p.Some? then p else Some(0.0)) == Some(FillRule(own, mean))
  {
  }

  /** The part of `FillOneUniform` about the shape of the filled image. */
  lemma FillOneShape(x: Timed, joined: seq<Timed>, startYear: int, names: seq<string>)
    requires Uniform(joined, names) && DistinctSeq(names) && DOY_BAND !in names
    requires x in joined
    ensures FillOne(x, joined, startYear).Ok?
    ensures FillOne(x, joined, startYear).value.start == x.start
    ensures NamesOf(FillOne(x, joined, startYear).value.image) == names + [DOY_BAND]
  {
    FillOneUniform(x, joined, startYear, names);
  }

  /**
   * Filling an image of a collection whose images all carry the distinct bands
   * `names` (without `doy`) succeeds; it keeps the start, adds the `doy` band after
   * the others and sets the `doy` property, and every other band follows the fill rule.
   */
  lemma FillOneUniform(x: Timed, joined: seq<Timed>, startYear: int, names: seq<string>)
    requires Uniform(joined, names) && DistinctSeq(names) && DOY_BAND !in names
    requires x in joined
    ensures FillOne(x, joined, startYear).Ok?
    ensures FillOne(x, joined, startYear).value.start == x.start
    ensures FillOne(x, joined, startYear).value.doy == Some(DayOffset(x.start, startYear))
    ensures NamesOf(FillOne(x, joined, startYear).value.image) == names + [DOY_BAND]
    ensures FillOne(x, joined, startYear).value.image[|names|].value == Some(DayOffset(x.start, startYear) as real)
    ensures forall i :: 0 <= i < |names| ==>
      FillOne(x, joined, startYear).value.image[i].value ==
        Some(FillRule(x.image[i].value, MeanOf(Contributions(Window(joined, x.start), names[i]))))
  {
    var w := Window(joined, x.start);
    var meanImage := Mean(w);
    WindowMean(x, joined, names);
    assert NamesOf(x.image) == names;
    WhereSameBands(meanImage, x.image, names);
    var kept := Where(meanImage, x.image, x.image).value;
    var u := Unmask(kept, 0.0);
    var ddiff := DayOffset(x.start, startYear);
    AppendDoy(u, names, ddiff);
    var filled := u + [DoyBand(ddiff)];
    assert FillOne(x, joined, startYear) == Ok(Timed(x.start, filled, Some(ddiff)));
    assert NamesOf(filled) == names + [DOY_BAND];
    forall i | 0 <= i < |names|
      ensures filled[i].value == Some(FillRule(x.image[i].value, MeanOf(Contributions(w, names[i]))))
    {
      FillRulePixel(meanImage[i].value, x.image[i].value);
    }
  }

  /**
   * The three cases of the fill of band `i`: a valid, non-zero own value is kept;
   * a masked or zero own value takes the window mean (a zero own value always has
   * one); a pixel masked in every window member becomes 0. The result always has a value.
   */
  lemma FilledBand(x: Timed, joined: seq<Timed>, startYear: int, names: seq<string>, i: nat)
    requires Uniform(joined, names) && DistinctSeq(names) && DOY_BAND !in names
    requires x in joined && i < |names|
    ensures FillOne(x, joined, startYear).Ok?
    ensures var v := FillOne(x, joined, startYear).value.image[i].value;
      var own := x.image[i].value;
      var vs := Contributions(Window(joined, x.start), names[i]);
      && v.Some?
      && (own.Some? && own.value != 0.0 ==> v == own)
      && (own == Some(0.0) ==> vs != [] && v == MeanOf(vs))
      && (own.None? && vs != [] ==> v == MeanOf(vs))
      && ((forall y {:trigger y in Window(joined, x.start)} :: y in Window(joined, x.start) ==> y.image[i].value.None?) ==> v == Some(0.0))
  {
    FillOneUniform(x, joined, startYear, names);
    WindowMean(x, joined, names);
    var w := Window(joined, x.start);
    if forall y {:trigger y in w} :: y in w ==> y.image[i].value.None? {
      forall y | y in w ensures Lookup(y.image, names[i]).None? {
        LookupUniform(y.image, names, i);
      }
    }
  }

  /** Band `i` of the filled image follows the fill rule. */
  lemma FilledBandRule(x: Timed, joined: seq<Timed>, startYear: int, names: seq<string>, i: nat)
    requires Uniform(joined, names) && DistinctSeq(names) && DOY_BAND !in names
    requires x in joined && i < |names|
    ensures FillOne(x, joined, startYear).Ok?
    ensures FillOne(x, joined, startYear).value.image[i].value ==
      Some(FillRule(x.image[i].value, MeanOf(Contributions(Window(joined, x.start), names[i]))))
  {
    FillOneUniform(x, joined, startYear, names);
  }

  /**
   * The fill never leaves the range of the values observed in the window: when
   * every valid value of band `i` in the window lies in `[lo, hi]`, the filled
   * value does too, unless the band is masked throughout the window, where it is 0.
   */
  lemma FilledWithinWindow(x: Timed, joined: seq<Timed>, startYear: int, names: seq<string>, i: nat, lo: real, hi: real)
    requires Uniform(joined, names) && DistinctSeq(names) && DOY_BAND !in names
    requires x in joined && i < |names|
    requires forall y {:trigger y in Window(joined, x.start)} :: y in Window(joined, x.start) && y.image[i].value.Some? ==> lo <= y.image[i].value.value <= hi
    ensures FillOne(x, joined, startYear).Ok?
    ensures var v := FillOne(x, joined, startYear).value.image[i].value;
      v.Some? && ((lo <= v.value <= hi) || (v.value == 0.0 && forall y {:trigger y in Window(joined, x.start)} :: y in Window(joined, x.start) ==> y.image[i].value.None?))
  {
    FilledBandRule(x, joined, startYear, names, i);
    var w := Window(joined, x.start);
    var own := x.image[i].value;
    var vs := Contributions(w, names[i]);
    if own.Some? && own.value != 0.0 {
      assert x in w;
    } else if vs != [] {
      forall k | 0 <= k < |vs| ensures lo <= vs[k] <= hi {
        assert vs[k] in vs;
        var y :| y in w && Lookup(y.image, names[i]) == Some(vs[k]);
        LookupUniform(y.image, names, i);
      }
      MeanWithin(vs, lo, hi);
    } else {
      forall y | y in w ensures y.image[i].value.None? {
        LookupUniform(y.image, names, i);
      }
    }
  }

  /** A pixel value as a list of the values it contributes to a mean: one when valid, none when masked. */
  function Present(v: Option<real>): (vs: seq<real>)
    ensures v.Some? ==> vs == [v.value]
    ensures v.None? ==> vs == []
  {
    if v.Some? then [v.value] else []
  }

  /** The valid values of band position `i` across `w`, in collection order. */
  function ValuesAt(w: seq<Timed>, i: nat): seq<real>
    requires forall k :: 0 <= k < |w| ==> i < |w[k].image|
  {
    if w == [] then [] else Present(w[0].image[i].value) + ValuesAt(w[1..], i)
  }

  lemma ValuesAtCons(p: Timed, rest: seq<Timed>, i: nat)
    requires i < |p.image| && forall k :: 0 <= k < |rest| ==> i < |rest[k].image|
    ensures ValuesAt([p] + rest, i) == Present(p.image[i].value) + ValuesAt(rest, i)
  {
    assert ([p] + rest)[1..] == rest;
  }

  /** The values at position `i` across a window of two images. */
  lemma ValuesAtTwo(p: Timed, q: Timed, i: nat)
    requires i < |p.image| && i < |q.image|
    ensures ValuesAt([p, q], i) == Present(p.image[i].value) + Present(q.image[i].value)
  {
    ValuesAtCons(q, [], i);
    assert [q] + [] == [q];
    ValuesAtCons(p, [q], i);
    assert [p] + [q] == [p, q];
  }

  /** The values at position `i` across a window of three images. */
  lemma ValuesAtThree(p: Timed, q: Timed, r: Timed, i: nat)
    requires i < |p.image| && i < |q.image| && i < |r.image|
    ensures ValuesAt([p, q, r], i) == Present(p.image[i].value) + Present(q.image[i].value) + Present(r.image[i].value)
  {
    ValuesAtTwo(q, r, i);
    ValuesAtCons(p, [q, r], i);
    assert [p] + [q, r] == [p, q, r];
  }

  /** The mean of one value is that value. */
  lemma MeanOfOne(a: real)
    ensures MeanOf([a]) == Some(a)
  {
    var vs := [a];
    assert vs[1..] == [];
    assert Sum(vs) == a;
    assert MeanOf(vs) == Some(Sum(vs) / (|vs| as real));
  }

  /** The mean of two values is their midpoint. */
  lemma MeanOfTwo(a: real, b: real)
    ensures MeanOf([a, b]) == Some((a + b) / 2.0)
  {
    assert [a, b][1..] == [b];
    assert [b][1..] == [];
    assert Sum([b]) == b;
    assert Sum([a, b]) == a + b;
    assert |[a, b]| as real == 2.0;
  }

  /** When every image of `w` carries `names`, the window contributions to band `names[i]` are the values at position `i`. */
  lemma {:induction false} ContributionsAt(w: seq<Timed>, names: seq<string>, i: nat)
    requires DistinctSeq(names) && i < |names|
    requires forall k :: 0 <= k < |w| ==> |w[k].image| == |names| && NamesOf(w[k].image) == names
    ensures Contributions(w, names[i]) == ValuesAt(w, i)
  {
    if w != [] {
      LookupUniform(w[0].image, names, i);
      ContributionsAt(w[1..], names, i);
    }
  }

  // ---------------------------------------------------------------------------
  // The window on the regular interval grid
  // ---------------------------------------------------------------------------

  /** The composites start every AGG_INTERVAL days from day `t0`, one per interval, in order. */
  predicate OnGrid(c: seq<Timed>, t0: int)
  {
    forall k :: 0 <= k < |c| ==> c[k].start == t0 + AGG_INTERVAL * k
  }

  /** On the grid, the window of interval `k` holds exactly intervals `k - 1`, `k` and `k + 1` (those that exist). */
  lemma WindowOnGrid(joined: seq<Timed>, t0: int, k: nat)
    requires OnGrid(joined, t0) && k < |joined|
    ensures Window(joined, joined[k].start) ==
      joined[(if k == 0 then 0 else k - 1)..(if k + 2 <= |joined| then k + 2 else |joined|)]
  {
    var t := joined[k].start;
    var a: nat := if k == 0 then 0 else k - 1;
    var b: nat := if k + 2 <= |joined| then k + 2 else |joined|;
    var lo, hi := t - AGG_INTERVAL - 1, t + AGG_INTERVAL + 1;
    assert lo == t0 + 10 * k - 11 && hi == t0 + 10 * k + 11;
    forall m | 0 <= m < |joined| ensures lo <= joined[m].start < hi <==> a <= m < b {
      assert joined[m].start == t0 + 10 * m;
    }
    FilterDateSlice(joined, lo, hi, a, b);
  }

  /**
   * With the script's start date, composites every AGG_INTERVAL days from
   * 1 January of START_YEAR get the `doy` values 0, 10, 20, ...: the `m`-th
   * filled image has `doy` 10 * m, as property and as band.
   */
  lemma GridDoy(joined: seq<Timed>, names: seq<string>, m: nat)
    requires Uniform(joined, names) && DistinctSeq(names) && DOY_BAND !in names
    requires OnGrid(joined, YearStart(START_YEAR)) && m < |joined|
    requires AGG_INTERVAL * m <= INT16_MAX
    ensures FillOne(joined[m], joined, START_YEAR).Ok?
    ensures FillOne(joined[m], joined, START_YEAR).value.doy == Some(AGG_INTERVAL * m)
    ensures NamesOf(FillOne(joined[m], joined, START_YEAR).value.image) == names + [DOY_BAND]
    ensures FillOne(joined[m], joined, START_YEAR).value.image[|names|].value == Some((AGG_INTERVAL * m) as real)
  {
    assert joined[m] in joined;
    FillOneUniform(joined[m], joined, START_YEAR, names);
    assert DayOffset(joined[m].start, START_YEAR) == AGG_INTERVAL * m;
  }

  /** On the grid, the window of an interval with neighbours on both sides is those three intervals. */
  lemma WindowOfMiddle(joined: seq<Timed>, t0: int, k: nat)
    requires OnGrid(joined, t0) && 1 <= k && k + 1 < |joined|
    ensures Window(joined, joined[k].start) == [joined[k - 1], joined[k], joined[k + 1]]
  {
    WindowOnGrid(joined, t0, k);
    assert joined[k - 1..k + 2] == [joined[k - 1], joined[k], joined[k + 1]];
  }

  /** On the grid, the window of the first interval is the first two intervals. */
  lemma WindowOfFirst(joined: seq<Timed>, t0: int)
    requires OnGrid(joined, t0) && 2 <= |joined|
    ensures Window(joined, joined[0].start) == [joined[0], joined[1]]
  {
    WindowOnGrid(joined, t0, 0);
    assert joined[0..2] == [joined[0], joined[1]];
  }

  /** A window of three images carrying `names` contributes their values at position `i`, in order. */
  lemma ContributionsOfThree(p: Timed, q: Timed, r: Timed, names: seq<string>, i: nat)
    requires DistinctSeq(names) && i < |names|
    requires NamesOf(p.image) == names && NamesOf(q.image) == names && NamesOf(r.image) == names
    ensures Contributions([p, q, r], names[i]) ==
      Present(p.image[i].value) + Present(q.image[i].value) + Present(r.image[i].value)
  {
    ContributionsAt([p, q, r], names, i);
    ValuesAtThree(p, q, r, i);
  }

  /** A window of two images carrying `names` contributes their values at position `i`, in order. */
  lemma ContributionsOfTwo(p: Timed, q: Timed, names: seq<string>, i: nat)
    requires DistinctSeq(names) && i < |names|
    requires NamesOf(p.image) == names && NamesOf(q.image) == names
    ensures Contributions([p, q], names[i]) == Present(p.image[i].value) + Present(q.image[i].value)
  {
    ContributionsAt([p, q], names, i);
    ValuesAtTwo(p, q, i);
  }

  /** Every image of a collection whose images carry `names` carries them. */
  lemma NamesAt(joined: seq<Timed>, names: seq<string>, m: nat)
    requires Uniform(joined, names) && m < |joined|
    ensures NamesOf(joined[m].image) == names && |joined[m].image| == |names|
  {
    assert joined[m] in joined;
  }

  /** Three images, the middle one masked at band `i` between the values `a` and `b`, average `a` and `b` there. */
  lemma MeanBetween(p: Timed, q: Timed, r: Timed, names: seq<string>, i: nat, a: real, b: real)
    requires DistinctSeq(names) && i < |names|
    requires NamesOf(p.image) == names && NamesOf(q.image) == names && NamesOf(r.image) == names
    requires p.image[i].value == Some(a) && q.image[i].value.None? && r.image[i].value == Some(b)
    ensures MeanOf(Contributions([p, q, r], names[i])) == Some((a + b) / 2.0)
  {
    ContributionsOfThree(p, q, r, names, i);
    assert Present(p.image[i].value) + Present(q.image[i].value) + Present(r.image[i].value) == [a, b];
    MeanOfTwo(a, b);
  }

  /** On the grid, the window mean at a masked pixel between the values `a` and `b` is their midpoint. */
  lemma NeighbourMean(joined: seq<Timed>, t0: int, names: seq<string>, k: nat, i: nat, a: real, b: real)
    requires Uniform(joined, names) && DistinctSeq(names)
    requires OnGrid(joined, t0) && 1 <= k && k + 1 < |joined| && i < |names|
    requires joined[k - 1].image[i].value == Some(a)
    requires joined[k].image[i].value.None?
    requires joined[k + 1].image[i].value == Some(b)
    ensures MeanOf(Contributions(Window(joined, joined[k].start), names[i])) == Some((a + b) / 2.0)
  {
    WindowOfMiddle(joined, t0, k);
    NamesAt(joined, names, k - 1);
    NamesAt(joined, names, k);
    NamesAt(joined, names, k + 1);
    MeanBetween(joined[k - 1], joined[k], joined[k + 1], names, i, a, b);
  }

  /**
   * On the grid, a masked pixel between two valid neighbours takes their mean:
   * with neighbours 5 and 7 it becomes 6.
   */
  lemma MeanOfNeighbours(joined: seq<Timed>, t0: int, startYear: int, names: seq<string>, k: nat, i: nat, a: real, b: real)
    requires Uniform(joined, names) && DistinctSeq(names) && DOY_BAND !in names
    requires OnGrid(joined, t0) && 1 <= k && k + 1 < |joined| && i < |names|
    requires joined[k - 1].image[i].value == Some(a)
    requires joined[k].image[i].value.None?
    requires joined[k + 1].image[i].value == Some(b)
    ensures FillOne(joined[k], joined, startYear).Ok?
    ensures FillOne(joined[k], joined, startYear).value.image[i].value == Some((a + b) / 2.0)
  {
    NeighbourMean(joined, t0, names, k, i, a, b);
    FilledBandRule(joined[k], joined, startYear, names, i);
  }

  /** The end-to-end example: neighbours 5 and 7 around a masked pixel give 6. */
  lemma FiveAndSevenGiveSix(joined: seq<Timed>, t0: int, startYear: int, names: seq<string>, k: nat, i: nat)
    requires Uniform(joined, names) && DistinctSeq(names) && DOY_BAND !in names
    requires OnGrid(joined, t0) && 1 <= k && k + 1 < |joined| && i < |names|
    requires joined[k - 1].image[i].value == Some(5.0)
    requires joined[k].image[i].value.None?
    requires joined[k + 1].image[i].value == Some(7.0)
    ensures FillOne(joined[k], joined, startYear).Ok?
    ensures FillOne(joined[k], joined, startYear).value.image[i].value == Some(6.0)
  {
    MeanOfNeighbours(joined, t0, startYear, names, k, i, 5.0, 7.0);
  }

  /** On the grid, the first interval, masked at band `i` like the second, is filled with 0. */
  lemma FirstOfTwoGaps(joined: seq<Timed>, t0: int, startYear: int, names: seq<string>, i: nat)
    requires Uniform(joined, names) && DistinctSeq(names) && DOY_BAND !in names
    requires OnGrid(joined, t0) && 3 <= |joined| && i < |names|
    requires joined[0].image[i].value.None? && joined[1].image[i].value.None?
    ensures FillOne(joined[0], joined, startYear).Ok?
    ensures FillOne(joined[0], joined, startYear).value.image[i].value == Some(0.0)
  {
    WindowOfFirst(joined, t0);
    NamesAt(joined, names, 0);
    NamesAt(joined, names, 1);
    ContributionsOfTwo(joined[0], joined[1], names, i);
    FilledBandRule(joined[0], joined, startYear, names, i);
  }

  /** On the grid, the second interval, masked at band `i` like the first, takes the third's value `v`. */
  lemma SecondOfTwoGaps(joined: seq<Timed>, t0: int, startYear: int, names: seq<string>, i: nat, v: real)
    requires Uniform(joined, names) && DistinctSeq(names) && DOY_BAND !in names
    requires OnGrid(joined, t0) && 3 <= |joined| && i < |names|
    requires joined[0].image[i].value.None? && joined[1].image[i].value.None?
    requires joined[2].image[i].value == Some(v)
    ensures FillOne(joined[1], joined, startYear).Ok?
    ensures FillOne(joined[1], joined, startYear).value.image[i].value == Some(v)
  {
    WindowOfMiddle(joined, t0, 1);
    NamesAt(joined, names, 0);
    NamesAt(joined, names, 1);
    NamesAt(joined, names, 2);
    ContributionsOfThree(joined[0], joined[1], joined[2], names, i);
    assert Present(joined[0].image[i].value) + Present(joined[1].image[i].value) + Present(joined[2].image[i].value) == [v];
    MeanOfOne(v);
    FilledBandRule(joined[1], joined, startYear, names, i);
  }

  /**
   * Fills do not propagate: on the grid, when the first two intervals are masked
   * at band `i` and the third is valid, the second interval is filled from the
   * third while the first, whose window only reaches the unfilled second, becomes 0.
   */
  lemma NoPropagation(joined: seq<Timed>, t0: int, startYear: int, names: seq<string>, i: nat, v: real)
    requires Uniform(joined, names) && DistinctSeq(names) && DOY_BAND !in names
    requires OnGrid(joined, t0) && 3 <= |joined| && i < |names|
    requires joined[0].image[i].value.None? && joined[1].image[i].value.None?
    requires joined[2].image[i].value == Some(v)
    ensures GapFill(joined, startYear).Ok?
    ensures GapFill(joined, startYear).value[0].image[i].value == Some(0.0)
    ensures GapFill(joined, startYear).value[1].image[i].value == Some(v)
  {
    forall k | 0 <= k < |joined| ensures FillOne(joined[k], joined, startYear).Ok? {
      FillOneUniform(joined[k], joined, startYear, names);
    }
    FirstOfTwoGaps(joined, t0, startYear, names, i);
    SecondOfTwoGaps(joined, t0, startYear, names, i, v);
  }
}

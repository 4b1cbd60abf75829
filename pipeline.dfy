/**
 * The fusion stage end to end: join the Sentinel-1 and Sentinel-2 composites,
 * gap-fill every joined image, sort by start, stack with `addBands`, and select
 * the bands `<b>.*` for every `b` of VV, VH, B1 ... GCVI, doy.
 *
 * The proofs are stated for any pair of band lists `n1` (primary) and `n2`
 * (secondary) that are well formed, then instantiated with the script's lists.
 */
module Pipeline {
  import opened Wrappers
  import opened BandNames
  import opened Raster
  import opened Collection
  import opened Config
  import opened Dates
  import opened Aligner
  import opened GapFiller
  import opened Stacker

  /** The fusion with the selection patterns `<b>.*` for each `b` of `patterns`. */
  function FuseWith(s1: seq<Timed>, s2: seq<Timed>, startYear: int, patterns: seq<string>): Result<Image, Error>
  {
    var joined := Joined(s1, s2);
    var filled :- GapFill(joined, startYear);
    Select(Stack(Sort(filled)), patterns)
  }

  /** The fused, stacked image the script builds from the two composite sequences. */
  function Fuse(s1: seq<Timed>, s2: seq<Timed>, startYear: int): Result<Image, Error>
  {
    FuseWith(s1, s2, startYear, STACK_BANDS)
  }

  /** The gap-filled joined collection sorted by start, the input of the stack (empty if the fill fails). */
  function Prepared(s1: seq<Timed>, s2: seq<Timed>, startYear: int): seq<Timed>
  {
    match GapFill(Joined(s1, s2), startYear)
    case Ok(filled) => Sort(filled)
    case Err(_) => []
  }

  /**
   * Band lists the fusion can stack: the secondary's names are distinct and
   * disjoint from the primary's, and all names with `doy` appended are distinct,
   * underscore-free and none a prefix of another.
   */
  predicate WellFormedLists(n1: seq<string>, n2: seq<string>)
  {
    && DistinctSeq(n2)
    && (forall a, b :: a in n1 && b in n2 ==> a != b)
    && DistinctSeq(n1 + n2) && DOY_BAND !in n1 + n2
    && DistinctSeq(n1 + n2 + [DOY_BAND]) && AllPlain(n1 + n2 + [DOY_BAND]) && PrefixFree(n1 + n2 + [DOY_BAND])
  }

  /** The script's band lists are well formed. */
  lemma ScriptListsWellFormed()
    ensures WellFormedLists(S1_BAND_LIST, S2_BAND_LIST)
    ensures S1_BAND_LIST + S2_BAND_LIST + [DOY_BAND] == STACK_BANDS
    ensures |STACK_BANDS| == BAND_NO + 1 == 17
  {
    BandListsWellFormed();
  }

  /** Gap-filling a collection whose images carry the distinct bands `names` (no `doy`) succeeds and appends `doy`. */
  lemma GapFillUniform(joined: seq<Timed>, startYear: int, names: seq<string>)
    requires Uniform(joined, names) && DistinctSeq(names) && DOY_BAND !in names
    ensures GapFill(joined, startYear).Ok?
    ensures |GapFill(joined, startYear).value| == |joined|
    ensures Uniform(GapFill(joined, startYear).value, names + [DOY_BAND])
    ensures Starts(GapFill(joined, startYear).value) == Starts(joined)
  {
    forall k | 0 <= k < |joined|
      ensures FillOne(joined[k], joined, startYear).Ok?
      ensures FillOne(joined[k], joined, startYear).value.start == joined[k].start
      ensures NamesOf(FillOne(joined[k], joined, startYear).value.image) == names + [DOY_BAND]
    {
      FillOneShape(joined[k], joined, startYear, names);
    }
  }

  /** Sorting keeps the images, so it keeps their band lists. */
  lemma SortUniform(c: seq<Timed>, names: seq<string>)
    requires Uniform(c, names)
    ensures Uniform(Sort(c), names)
    ensures |Sort(c)| == |c|
  {
    forall x | x in Sort(c) ensures NamesOf(x.image) == names {
      assert x in multiset(Sort(c));
    }
    assert |multiset(Sort(c))| == |multiset(c)|;
  }

  /**
   * With well-formed band lists the gap-fill succeeds; the collection to stack
   * has one image per joined interval, each carrying `n1 ++ n2 ++ [doy]`, and is
   * the filled collection sorted by start.
   */
  lemma PreparedUniform(s1: seq<Timed>, s2: seq<Timed>, startYear: int, n1: seq<string>, n2: seq<string>)
    requires Uniform(s1, n1) && Uniform(s2, n2) && WellFormedLists(n1, n2)
    ensures Uniform(Joined(s1, s2), n1 + n2)
    ensures GapFill(Joined(s1, s2), startYear).Ok?
    ensures Prepared(s1, s2, startYear) == Sort(GapFill(Joined(s1, s2), startYear).value)
    ensures Uniform(Prepared(s1, s2, startYear), n1 + n2 + [DOY_BAND])
    ensures |Prepared(s1, s2, startYear)| == |Joined(s1, s2)|
  {
    JoinedBands(s1, s2, n1, n2);
    GapFillUniform(Joined(s1, s2), startYear, n1 + n2);
    SortUniform(GapFill(Joined(s1, s2), startYear).value, n1 + n2 + [DOY_BAND]);
  }

  /** Once the gap-fill succeeds, the fusion is the selection from the stack of the prepared collection. */
  lemma FuseWithPrepared(s1: seq<Timed>, s2: seq<Timed>, startYear: int, patterns: seq<string>)
    requires GapFill(Joined(s1, s2), startYear).Ok?
    ensures FuseWith(s1, s2, startYear, patterns) == Select(Stack(Prepared(s1, s2, startYear)), patterns)
  {
  }

  /**
   * With well-formed band lists, the fusion yields one band per list entry and
   * joined interval, with distinct names, regrouped band by band over the
   * collection to stack; with no joined interval, the first pattern matches
   * nothing and the selection fails.
   */
  lemma FuseWithLayout(s1: seq<Timed>, s2: seq<Timed>, startYear: int, n1: seq<string>, n2: seq<string>)
    requires Uniform(s1, n1) && Uniform(s2, n2) && WellFormedLists(n1, n2)
    ensures Joined(s1, s2) == [] ==> FuseWith(s1, s2, startYear, n1 + n2 + [DOY_BAND]) == Err(NoMatch((n1 + n2 + [DOY_BAND])[0]))
    ensures Joined(s1, s2) != [] ==>
      && FuseWith(s1, s2, startYear, n1 + n2 + [DOY_BAND]).Ok?
      && (forall m :: 0 <= m < |Prepared(s1, s2, startYear)| ==>
            |Prepared(s1, s2, startYear)[m].image| == |n1 + n2 + [DOY_BAND]|)
      && FuseWith(s1, s2, startYear, n1 + n2 + [DOY_BAND]).value ==
           BandMajorFrom(Prepared(s1, s2, startYear), |n1 + n2 + [DOY_BAND]|, 0)
      && |FuseWith(s1, s2, startYear, n1 + n2 + [DOY_BAND]).value| == Times(|n1 + n2 + [DOY_BAND]|, |Joined(s1, s2)|)
      && DistinctNames(FuseWith(s1, s2, startYear, n1 + n2 + [DOY_BAND]).value)
  {
    var all := n1 + n2 + [DOY_BAND];
    PreparedUniform(s1, s2, startYear, n1, n2);
    FuseWithPrepared(s1, s2, startYear, all);
    var sorted := Prepared(s1, s2, startYear);
    if Joined(s1, s2) == [] {
      assert sorted == [];
      StackIsStacked(sorted, all);
      SelectEmptyStack(all);
    } else {
      StackThenSelect(sorted, all);
      StackThenSelectLength(sorted, all);
    }
  }

  /**
   * With well-formed band lists, band `i` of the `m`-th interval (in start
   * order) is in the fused image under the name of list entry `i` suffixed
   * with `m`, and reading that name gives the band's value.
   */
  lemma FuseWithBand(s1: seq<Timed>, s2: seq<Timed>, startYear: int, n1: seq<string>, n2: seq<string>, i: nat, m: nat)
    requires Uniform(s1, n1) && Uniform(s2, n2) && WellFormedLists(n1, n2)
    requires i < |n1 + n2 + [DOY_BAND]| && m < |Joined(s1, s2)|
    ensures FuseWith(s1, s2, startYear, n1 + n2 + [DOY_BAND]).Ok?
    ensures m < |Prepared(s1, s2, startYear)| && i < |Prepared(s1, s2, startYear)[m].image|
    ensures Suffixed((n1 + n2 + [DOY_BAND])[i], m) in NameSet(FuseWith(s1, s2, startYear, n1 + n2 + [DOY_BAND]).value)
    ensures Lookup(FuseWith(s1, s2, startYear, n1 + n2 + [DOY_BAND]).value, Suffixed((n1 + n2 + [DOY_BAND])[i], m)) ==
      Prepared(s1, s2, startYear)[m].image[i].value
  {
    var all := n1 + n2 + [DOY_BAND];
    PreparedUniform(s1, s2, startYear, n1, n2);
    FuseWithPrepared(s1, s2, startYear, all);
    StackThenSelectNamed(Prepared(s1, s2, startYear), all, i, m);
  }

  /** Every image to stack is the gap-filled version of some joined image. */
  lemma PreparedFromJoined(s1: seq<Timed>, s2: seq<Timed>, startYear: int, n1: seq<string>, n2: seq<string>, m: nat)
    requires Uniform(s1, n1) && Uniform(s2, n2) && WellFormedLists(n1, n2)
    requires m < |Joined(s1, s2)|
    ensures m < |Prepared(s1, s2, startYear)|
    ensures exists k :: (0 <= k < |Joined(s1, s2)|
      && FillOne(Joined(s1, s2)[k], Joined(s1, s2), startYear) == Ok(Prepared(s1, s2, startYear)[m]))
  {
    PreparedUniform(s1, s2, startYear, n1, n2);
    var filled := GapFill(Joined(s1, s2), startYear).value;
    var sorted := Prepared(s1, s2, startYear);
    assert sorted[m] in multiset(filled);
    var k :| 0 <= k < |filled| && filled[k] == sorted[m];
  }

  /**
   * Composites in start order: with in-order primaries and one secondary per
   * start, the sort changes nothing, so the `m`-th image to stack is the
   * gap-filled `m`-th joined image.
   */
  lemma PreparedInOrder(s1: seq<Timed>, s2: seq<Timed>, startYear: int, n1: seq<string>, n2: seq<string>, m: nat)
    requires Uniform(s1, n1) && Uniform(s2, n2) && WellFormedLists(n1, n2)
    requires StrictlyIncreasing(s1) && DistinctStarts(s2)
    requires m < |Joined(s1, s2)|
    ensures m < |Prepared(s1, s2, startYear)|
    ensures FillOne(Joined(s1, s2)[m], Joined(s1, s2), startYear) == Ok(Prepared(s1, s2, startYear)[m])
  {
    var joined := Joined(s1, s2);
    PreparedUniform(s1, s2, startYear, n1, n2);
    GapFillUniform(joined, startYear, n1 + n2);
    var filled := GapFill(joined, startYear).value;
    JoinedIncreasing(s1, s2);
    assert SortedByStart(filled) by {
      forall p, q | 0 <= p < q < |filled| ensures filled[p].start <= filled[q].start {
        assert Starts(filled)[p] == Starts(joined)[p];
        assert Starts(filled)[q] == Starts(joined)[q];
      }
    }
    SortOfSorted(filled);
  }

  // ---------------------------------------------------------------------------
  // The script's band lists
  // ---------------------------------------------------------------------------

  /**
   * The fusion of composites carrying VV, VH and B1 ... GCVI succeeds exactly
   * when some interval is in both sequences, and then yields
   * (BAND_NO + 1) = 17 bands per joined interval, with distinct names,
   * regrouped band by band; with no joined interval `VV.*` matches nothing.
   */
  lemma FuseLayout(s1: seq<Timed>, s2: seq<Timed>, startYear: int)
    requires Uniform(s1, S1_BAND_LIST) && Uniform(s2, S2_BAND_LIST)
    ensures Joined(s1, s2) == [] ==> Fuse(s1, s2, startYear) == Err(NoMatch("VV"))
    ensures Joined(s1, s2) != [] ==>
      && Fuse(s1, s2, startYear).Ok?
      && (forall m :: 0 <= m < |Prepared(s1, s2, startYear)| ==>
            |Prepared(s1, s2, startYear)[m].image| == |STACK_BANDS|)
      && Fuse(s1, s2, startYear).value == BandMajorFrom(Prepared(s1, s2, startYear), |STACK_BANDS|, 0)
      && |Fuse(s1, s2, startYear).value| == (BAND_NO + 1) * |Joined(s1, s2)|
      && DistinctNames(Fuse(s1, s2, startYear).value)
  {
    ScriptListsWellFormed();
    FuseWithLayout(s1, s2, startYear, S1_BAND_LIST, S2_BAND_LIST);
    TimesIsProduct(BAND_NO + 1, |Joined(s1, s2)|);
  }

  /**
   * Band `i` of interval `m` (in start order) is in the fused image under the
   * name `STACK_BANDS[i]` suffixed with `m`, and reading that name gives it.
   */
  lemma FuseBand(s1: seq<Timed>, s2: seq<Timed>, startYear: int, i: nat, m: nat)
    requires Uniform(s1, S1_BAND_LIST) && Uniform(s2, S2_BAND_LIST)
    requires i < |STACK_BANDS| && m < |Joined(s1, s2)|
    ensures Fuse(s1, s2, startYear).Ok?
    ensures m < |Prepared(s1, s2, startYear)| && i < |Prepared(s1, s2, startYear)[m].image|
    ensures Suffixed(STACK_BANDS[i], m) in NameSet(Fuse(s1, s2, startYear).value)
    ensures Lookup(Fuse(s1, s2, startYear).value, Suffixed(STACK_BANDS[i], m)) == Prepared(s1, s2, startYear)[m].image[i].value
  {
    ScriptListsWellFormed();
    FuseWithBand(s1, s2, startYear, S1_BAND_LIST, S2_BAND_LIST, i, m);
  }

  /**
   * With in-order Sentinel-1 composites and one Sentinel-2 composite per start,
   * the fused band `STACK_BANDS[i]` suffixed with `m` carries band `i` of the
   * gap-filled `m`-th joined image.
   */
  lemma FuseInOrder(s1: seq<Timed>, s2: seq<Timed>, startYear: int, i: nat, m: nat)
    requires Uniform(s1, S1_BAND_LIST) && Uniform(s2, S2_BAND_LIST)
    requires StrictlyIncreasing(s1) && DistinctStarts(s2)
    requires i < |STACK_BANDS| && m < |Joined(s1, s2)|
    ensures FillOne(Joined(s1, s2)[m], Joined(s1, s2), startYear).Ok?
    ensures Fuse(s1, s2, startYear).Ok?
    ensures i < |FillOne(Joined(s1, s2)[m], Joined(s1, s2), startYear).value.image|
    ensures Lookup(Fuse(s1, s2, startYear).value, Suffixed(STACK_BANDS[i], m)) ==
      FillOne(Joined(s1, s2)[m], Joined(s1, s2), startYear).value.image[i].value
  {
    ScriptListsWellFormed();
    PreparedInOrder(s1, s2, startYear, S1_BAND_LIST, S2_BAND_LIST, m);
    FuseBand(s1, s2, startYear, i, m);
  }

  /**
   * The day-offset band of interval `m`: `doy` suffixed with `m` holds the Int16
   * day offset of that interval's start from 1 January of the start year.
   */
  lemma FuseDoyBand(s1: seq<Timed>, s2: seq<Timed>, startYear: int, m: nat)
    requires Uniform(s1, S1_BAND_LIST) && Uniform(s2, S2_BAND_LIST)
    requires m < |Joined(s1, s2)|
    ensures Fuse(s1, s2, startYear).Ok?
    ensures m < |Prepared(s1, s2, startYear)|
    ensures Lookup(Fuse(s1, s2, startYear).value, Suffixed(DOY_BAND, m)) ==
      Some(DayOffset(Prepared(s1, s2, startYear)[m].start, startYear) as real)
  {
    ScriptListsWellFormed();
    FuseBand(s1, s2, startYear, BAND_NO, m);
    PreparedFromJoined(s1, s2, startYear, S1_BAND_LIST, S2_BAND_LIST, m);
    var joined := Joined(s1, s2);
    var k :| 0 <= k < |joined| && FillOne(joined[k], joined, startYear) == Ok(Prepared(s1, s2, startYear)[m]);
    assert joined[k] in joined;
    PreparedUniform(s1, s2, startYear, S1_BAND_LIST, S2_BAND_LIST);
    FillOneUniform(joined[k], joined, startYear, JOINED_BANDS);
  }

  /**
   * A sensor that never sees the ground: when every Sentinel-2 composite is
   * masked in every band, every Sentinel-2 band of the fused image is present
   * and holds 0.
   */
  lemma SilentSensor(s1: seq<Timed>, s2: seq<Timed>, startYear: int, i: nat, m: nat)
    requires Uniform(s1, S1_BAND_LIST) && Uniform(s2, S2_BAND_LIST)
    requires forall x, j {:trigger x in s2, x.image[j]} :: x in s2 && 0 <= j < |x.image| ==> x.image[j].value.None?
    requires |S1_BAND_LIST| <= i < |JOINED_BANDS| && m < |Joined(s1, s2)|
    ensures Fuse(s1, s2, startYear).Ok?
    ensures Suffixed(STACK_BANDS[i], m) in NameSet(Fuse(s1, s2, startYear).value)
    ensures Lookup(Fuse(s1, s2, startYear).value, Suffixed(STACK_BANDS[i], m)) == Some(0.0)
  {
    ScriptListsWellFormed();
    FuseBand(s1, s2, startYear, i, m);
    PreparedFromJoined(s1, s2, startYear, S1_BAND_LIST, S2_BAND_LIST, m);
    var joined := Joined(s1, s2);
    var k :| 0 <= k < |joined| && FillOne(joined[k], joined, startYear) == Ok(Prepared(s1, s2, startYear)[m]);
    assert joined[k] in joined;
    SilentWindow(s1, s2, joined[k].start, i);
    PreparedUniform(s1, s2, startYear, S1_BAND_LIST, S2_BAND_LIST);
    FilledBand(joined[k], joined, startYear, JOINED_BANDS, i);
  }

  /** When every Sentinel-2 pixel is masked, every joined image is masked in every Sentinel-2 band. */
  lemma SilentWindow(s1: seq<Timed>, s2: seq<Timed>, t: int, i: nat)
    requires Uniform(s1, S1_BAND_LIST) && Uniform(s2, S2_BAND_LIST)
    requires forall x, j {:trigger x in s2, x.image[j]} :: x in s2 && 0 <= j < |x.image| ==> x.image[j].value.None?
    requires |S1_BAND_LIST| <= i < |JOINED_BANDS|
    ensures forall y {:trigger y in Window(Joined(s1, s2), t)} :: y in Window(Joined(s1, s2), t) ==> i < |y.image| && y.image[i].value.None?
  {
    ScriptListsWellFormed();
    var joined := Joined(s1, s2);
    JoinedBands(s1, s2, S1_BAND_LIST, S2_BAND_LIST);
    forall y | y in Window(joined, t) ensures i < |y.image| && y.image[i].value.None? {
      var p :| 0 <= p < |joined| && joined[p] == y;
      var pair := InnerJoin(s1, s2)[p];
      assert pair in InnerJoin(s1, s2);
      assert NamesOf(pair.primary.image) == S1_BAND_LIST;
      assert y.image == pair.primary.image + pair.secondary.image;
      assert y.image[i] == pair.secondary.image[i - |S1_BAND_LIST|];
    }
  }

  /**
   * The radar counterpart: when every Sentinel-1 composite is masked in every
   * band, every Sentinel-1 band of the fused image is present and holds 0.
   */
  lemma SilentRadar(s1: seq<Timed>, s2: seq<Timed>, startYear: int, i: nat, m: nat)
    requires Uniform(s1, S1_BAND_LIST) && Uniform(s2, S2_BAND_LIST)
    requires forall x, j {:trigger x in s1, x.image[j]} :: x in s1 && 0 <= j < |x.image| ==> x.image[j].value.None?
    requires i < |S1_BAND_LIST| && m < |Joined(s1, s2)|
    ensures Fuse(s1, s2, startYear).Ok?
    ensures Suffixed(STACK_BANDS[i], m) in NameSet(Fuse(s1, s2, startYear).value)
    ensures Lookup(Fuse(s1, s2, startYear).value, Suffixed(STACK_BANDS[i], m)) == Some(0.0)
  {
    ScriptListsWellFormed();
    FuseBand(s1, s2, startYear, i, m);
    PreparedFromJoined(s1, s2, startYear, S1_BAND_LIST, S2_BAND_LIST, m);
    var joined := Joined(s1, s2);
    var k :| 0 <= k < |joined| && FillOne(joined[k], joined, startYear) == Ok(Prepared(s1, s2, startYear)[m]);
    assert joined[k] in joined;
    SilentRadarWindow(s1, s2, joined[k].start, i);
    PreparedUniform(s1, s2, startYear, S1_BAND_LIST, S2_BAND_LIST);
    FilledBand(joined[k], joined, startYear, JOINED_BANDS, i);
  }

  /** When every Sentinel-1 pixel is masked, every joined image is masked in every Sentinel-1 band. */
  lemma SilentRadarWindow(s1: seq<Timed>, s2: seq<Timed>, t: int, i: nat)
    requires Uniform(s1, S1_BAND_LIST) && Uniform(s2, S2_BAND_LIST)
    requires forall x, j {:trigger x in s1, x.image[j]} :: x in s1 && 0 <= j < |x.image| ==> x.image[j].value.None?
    requires i < |S1_BAND_LIST|
    ensures forall y {:trigger y in Window(Joined(s1, s2), t)} :: y in Window(Joined(s1, s2), t) ==> i < |y.image| && y.image[i].value.None?
  {
    ScriptListsWellFormed();
    var joined := Joined(s1, s2);
    JoinedBands(s1, s2, S1_BAND_LIST, S2_BAND_LIST);
    forall y | y in Window(joined, t) ensures i < |y.image| && y.image[i].value.None? {
      var p :| 0 <= p < |joined| && joined[p] == y;
      var pair := InnerJoin(s1, s2)[p];
      assert pair in InnerJoin(s1, s2);
      assert NamesOf(pair.primary.image) == S1_BAND_LIST;
      assert y.image == pair.primary.image + pair.secondary.image;
      assert y.image[i] == pair.primary.image[i];
    }
  }

  /** The names the visualisation parameters use are `NDVI` suffixed with 5, 3 and 1. */
  lemma VisualisationNames()
    ensures Suffixed("NDVI", 5) == "NDVI_5"
    ensures Suffixed("NDVI", 3) == "NDVI_3"
    ensures Suffixed("NDVI", 1) == "NDVI_1"
  {
    assert DigitChar(5) == '5' && DigitChar(3) == '3' && DigitChar(1) == '1';
  }

  /** `NDVI` suffixed with the position of every joined interval is a band of the fused image. */
  lemma FuseHasNdvi(s1: seq<Timed>, s2: seq<Timed>, startYear: int, m: nat)
    requires Uniform(s1, S1_BAND_LIST) && Uniform(s2, S2_BAND_LIST)
    requires m < |Joined(s1, s2)|
    ensures Fuse(s1, s2, startYear).Ok?
    ensures Suffixed("NDVI", m) in NameSet(Fuse(s1, s2, startYear).value)
  {
    StackBandsLiteral();
    assert STACK_BANDS[11] == "NDVI";
    FuseBand(s1, s2, startYear, 11, m);
  }

  /** The band names used by the visualisation parameters exist once there are six joined intervals. */
  lemma VisualisationBands(s1: seq<Timed>, s2: seq<Timed>, startYear: int)
    requires Uniform(s1, S1_BAND_LIST) && Uniform(s2, S2_BAND_LIST)
    requires 6 <= |Joined(s1, s2)|
    ensures Fuse(s1, s2, startYear).Ok?
    ensures "NDVI_5" in NameSet(Fuse(s1, s2, startYear).value)
    ensures "NDVI_3" in NameSet(Fuse(s1, s2, startYear).value)
    ensures "NDVI_1" in NameSet(Fuse(s1, s2, startYear).value)
  {
    FuseHasNdvi(s1, s2, startYear, 5);
    FuseHasNdvi(s1, s2, startYear, 3);
    FuseHasNdvi(s1, s2, startYear, 1);
    VisualisationNames();
  }
}

/** The input data parameters of the script and the band lists they define. */
module Config {
  import opened BandNames

  /** Number of days of one temporal composite. */
  const AGG_INTERVAL: int := 10

  /** Sentinel-2 bands (reflectances, then vegetation and water indices). */
  const S2_BAND_LIST: seq<string> :=
    ["B1", "B2", "B3", "B4", "B5", "B6", "B7", "B8", "B9", "NDVI", "EVI", "NDWI", "SAVI", "GCVI"]

  /** Sentinel-1 polarisations. */
  const S1_BAND_LIST: seq<string> := ["VV", "VH"]

  const BAND_NO: int := |S1_BAND_LIST + S2_BAND_LIST|

  /** Name of the day-of-year band. */
  const DOY_BAND: string := "doy"

  /** Year of the start of the date range `2022-01-01`. */
  const START_YEAR: int := 2022

  /** Bands of one joined image: the Sentinel-1 composite's, then the Sentinel-2 composite's. */
  const JOINED_BANDS: seq<string> := S1_BAND_LIST + S2_BAND_LIST

  /** Bands of one gap-filled image, and the prefixes the final selection keeps, in order. */
  const STACK_BANDS: seq<string> := JOINED_BANDS + [DOY_BAND]

  /** The length shared by the band names that start with `c`. */
  function GroupLength(c: char): nat
  {
    if c == 'V' || c == 'B' then 2 else if c == 'E' || c == 'd' then 3 else 4
  }

  lemma StackBandsLiteral()
    ensures STACK_BANDS == ["VV", "VH", "B1", "B2", "B3", "B4", "B5", "B6", "B7", "B8", "B9",
                            "NDVI", "EVI", "NDWI", "SAVI", "GCVI", "doy"]
    ensures BAND_NO == 16
  {
  }

  lemma NotPrefix(a: string, b: string)
    requires 1 <= |a| && 1 <= |b| && a != b
    requires a[0] != b[0] || |a| == |b|
    ensures !(a <= b)
  {
  }

  /** Stack band names are non-empty, and names sharing a first letter have the same length. */
  lemma StackBandsGrouped()
    ensures forall i :: 0 <= i < |STACK_BANDS| ==>
      |STACK_BANDS[i]| >= 1 && |STACK_BANDS[i]| == GroupLength(STACK_BANDS[i][0])
  {
    StackBandsLiteral();
  }

  /** The stack band names are distinct. */
  lemma StackBandsDistinct()
    ensures DistinctSeq(STACK_BANDS)
  {
    StackBandsLiteral();
  }

  /** No stack band name is a prefix of another. */
  lemma StackBandsPrefixFree()
    ensures PrefixFree(STACK_BANDS)
  {
    var names := STACK_BANDS;
    // Names sharing a first letter have the same length, so neither is a prefix of the other.
    StackBandsGrouped();
    StackBandsDistinct();
    forall i, j | 0 <= i < |names| && 0 <= j < |names| && i != j
      ensures !(names[i] <= names[j])
    {
      NotPrefix(names[i], names[j]);
    }
  }

  /** The band lists have distinct, underscore-free names, none a prefix of another. */
  lemma BandListsWellFormed()
    ensures |STACK_BANDS| == BAND_NO + 1 == 17
    ensures DistinctSeq(STACK_BANDS) && AllPlain(STACK_BANDS) && PrefixFree(STACK_BANDS)
    ensures DistinctSeq(JOINED_BANDS) && AllPlain(JOINED_BANDS) && DOY_BAND !in JOINED_BANDS
    ensures DistinctSeq(S2_BAND_LIST)
    ensures forall a, b :: a in S1_BAND_LIST && b in S2_BAND_LIST ==> a != b
  {
    StackBandsLiteral();
    StackBandsPrefixFree();
    assert forall i :: 0 <= i < |STACK_BANDS| ==> Plain(STACK_BANDS[i]);
    assert JOINED_BANDS == STACK_BANDS[..16];
    assert S2_BAND_LIST == STACK_BANDS[2..16];
  }
}

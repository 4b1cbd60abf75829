# Sentinel-1/Sentinel-2 time-series fusion, modelled in Dafny

This project models the fusion stage of `helpers/gee_getSenHTS.js`, an Earth
Engine script that builds a multi-temporal stack of radar and optical bands.
By the time the modelled stage starts, the Sentinel-1 composites (`VV`, `VH`)
and the Sentinel-2 composites (`B1` ... `B9`, `NDVI`, `EVI`, `NDWI`, `SAVI`,
`GCVI`) already exist, one per 10-day interval. The stage then:

1. inner-joins the two composite sequences on equal `system:time_start` and
   concatenates each matched pair with `ee.Image.cat` (primary first);
2. maps every joined image through a gap-fill. Each masked pixel takes the mean
   of the joined images that start within 11 days. What stays masked becomes 0.
   A `doy` band (the Int16 day offset from 1 January of the start year) is
   appended, and the result is sorted by start;
3. folds `addBands` over the sorted collection from an empty image. The `k`-th
   image's bands arrive renamed `<band>_<k>`; the first image's bands keep their
   names;
4. selects `<b>.*` for every `b` of `VV, VH, B1 ... GCVI, doy`.

Every Earth Engine operation in the stage works pixel by pixel, so an image is
modelled as its ordered list of bands, each holding the value at one pixel or
`None` where that pixel is masked (`Raster.Image`). A collection is a sequence
of `Collection.Timed` values: start day, bands and the `doy` property.

The model relies on these Earth Engine semantics:

- `addBands` renames a band whose name is taken to `<name>_<n>`, with `n` the
  least positive number still free (`BandNames.Rename`).
- `Image.cat(a, b)` is `a.addBands(b)`.
- In `where`, a masked input stays masked, a masked test or value keeps the
  input, and a non-zero test selects the value.
- `ImageCollection.mean` ignores masked pixels and takes its band list from the
  first image.
- `filterDate` keeps the half-open range `[start, end)`.
- `select` with regular expressions `<b>.*` is a full match, so it matches the
  bands whose names start with `b`. It returns the matches pattern by pattern,
  and fails when a pattern matches nothing.
- `toInt16` saturates.

Modules, in dependency order:

- `Wrappers`: `Option`, `Result` and `MapAll`.
- `BandNames`: the `addBands` renaming and properties of band-name lists.
- `Raster`: `addBands`, `cat`, `where`, `unmask` and `select`.
- `Collection`: `filterDate`, `mean`, the inner join and `sort`.
- `Dates`: the day offset and `toInt16`.
- `Config`: the script's constants.
- `Aligner`: the join.
- `GapFiller`: the mapped gap-fill.
- `Stacker`: `iterate` and `select`.
- `Pipeline`: the stage end to end.

Notes on what the code does at the edges:

- The averaging window includes images that start 11 days before `t`, but not
  those that start 11 days after it. `filterDate`'s end is exclusive, so the
  window is `[t - 11, t + 11)`.
- The final `select` regroups the stack band by band (every `VV_k`, then every
  `VH_k`, ...), not interval by interval (`Stacker.BandMajorFrom`).
- A valid pixel whose value is exactly 0 is replaced by the window mean,
  because `where` treats a test value of 0 as false (`GapFiller.FillRule`).
- Fills do not propagate: every window is read from the joined collection
  before any fill (`GapFiller.NoPropagation`).
- If a sensor contributes no composite at all, the join is empty and the
  selection fails on `VV.*` (`Pipeline.FuseLayout`). A sensor whose composites
  are all masked gives 0 in every one of its bands (`Pipeline.SilentSensor`,
  `Pipeline.SilentRadar`).

## Model

| member | source | states |
|---|---|---|
| Config.StackBandsLiteral | helpers/gee_getSenHTS.js:20-26 | the selection list `S1 ++ S2 ++ [doy]` is the 17 names VV, VH, B1 ... B9, NDVI, EVI, NDWI, SAVI, GCVI, doy; BAND_NO is 16 |
| Config.StackBandsPrefixFree | helpers/gee_getSenHTS.js:23-26 | no name of the selection list is a prefix of another, so each pattern `<b>.*` can only match bands derived from `b` |
| Config.BandListsWellFormed | helpers/gee_getSenHTS.js:23-26 | the band lists have distinct, underscore-free names; the Sentinel-1 and Sentinel-2 lists share none; `doy` is in neither; the stack list has BAND_NO + 1 = 17 names |
| Pipeline.ScriptListsWellFormed | helpers/gee_getSenHTS.js:23-26 | the script's lists satisfy every condition the general fusion theorems assume, and the selection list is `S1 ++ S2 ++ [doy]` |
| BandNames.ParseDigitsOfDigits | helpers/gee_getSenHTS.js:164 | the decimal suffix `addBands` writes reads back to the number it encodes |
| BandNames.SuffixedEqual | helpers/gee_getSenHTS.js:164 | two suffixed plain band names are equal exactly when their bases and their suffix numbers are |
| BandNames.FirstFree | helpers/gee_getSenHTS.js:164 | the search finds a suffix whose tagged name is free, and every smaller suffix from the start of the search is taken |
| BandNames.Rename | helpers/gee_getSenHTS.js:164 | a renamed band never takes a name already in the image, and a free name is kept |
| BandNames.RenameIsFirstFree | helpers/gee_getSenHTS.js:164 | a clashing name receives exactly the least positive suffix not yet taken |
| BandNames.PatternMatchesOwnBase | helpers/gee_getSenHTS.js:165 | in a prefix-free list of plain names, `<names[i]>.*` matches a suffixed `names[j]` exactly when i = j |
| Raster.AddBands | helpers/gee_getSenHTS.js:164 | `addBands` keeps the destination's bands in front, appends one band per source band carrying its value, and keeps names distinct |
| Raster.AddBandsAs | helpers/gee_getSenHTS.js:164 | `addBands` appends exactly the source bands, each under the name `Rename` gives it against every band placed before it |
| Raster.Cat | helpers/gee_getSenHTS.js:147 | `Image.cat(primary, secondary)` is `primary.addBands(secondary)`; its contract is carried by `Raster.AddBands` and `Raster.AddBandsAs`, and `Raster.CatDisjoint` shows the script's join concatenates without renaming |
| Raster.CatDisjoint | helpers/gee_getSenHTS.js:147 | `Image.cat` of images sharing no band name is plain concatenation, with nothing renamed |
| Raster.WherePixel | helpers/gee_getSenHTS.js:158 | a masked input stays masked; a masked test or value keeps the input; otherwise a non-zero test selects the value |
| Raster.Where | helpers/gee_getSenHTS.js:158 | `where` succeeds exactly when test and value have one band or one per input band; it keeps the input's names and works band by band |
| Raster.Unmask | helpers/gee_getSenHTS.js:158 | after `unmask(fill)` every pixel has a value: valid pixels keep theirs and masked pixels take `fill` |
| Raster.Matching | helpers/gee_getSenHTS.js:165 | a pattern `<prefix>.*` keeps exactly the bands whose names start with `prefix` |
| Raster.MatchingConcat | helpers/gee_getSenHTS.js:165 | matching a concatenation is matching each part in turn |
| Raster.Select | helpers/gee_getSenHTS.js:165 | `select` succeeds exactly when every pattern matches a band, otherwise it fails naming a pattern that matches nothing; on success it holds exactly the bands some pattern matches |
| Collection.FilterDate | helpers/gee_getSenHTS.js:152-153 | `filterDate(lo, hi)` keeps exactly the images starting in `[lo, hi)` |
| Collection.FilterDateSlice | helpers/gee_getSenHTS.js:152-153 | when the images in range are exactly positions `a` to `b - 1`, the filter is that slice, in order |
| Collection.Contributions | helpers/gee_getSenHTS.js:153 | every value averaged for a band is a valid value of it in some window image, and none is averaged exactly when it is masked in every window image |
| Collection.ContributionsComplete | helpers/gee_getSenHTS.js:153 | every valid value of the band in a window image is averaged, and the number of values averaged is the number of window images where the band is valid |
| Collection.MeanOf | helpers/gee_getSenHTS.js:153 | the mean is masked exactly when no value contributes |
| Collection.MeanWithin | helpers/gee_getSenHTS.js:153 | a mean of values within `[lo, hi]` lies within `[lo, hi]` |
| Collection.Mean | helpers/gee_getSenHTS.js:153 | `mean()` has the first image's bands; each band is masked exactly when it is masked in every image, and otherwise holds the mean of its valid values |
| Collection.LookupMember | helpers/gee_getSenHTS.js:165 | in an image with distinct names, every band is found under its own name |
| Collection.MatchesOf | helpers/gee_getSenHTS.js:135-144 | the join pairs an image with exactly the secondaries of equal start, and with at most one when secondary starts are distinct |
| Collection.InnerJoin | helpers/gee_getSenHTS.js:135-144 | the inner join yields exactly the (primary, secondary) pairs of equal `system:time_start`, and no more pairs than primaries when secondary starts are distinct |
| Collection.Insert | helpers/gee_getSenHTS.js:162 | inserting into a sorted collection keeps it sorted and adds exactly the one image |
| Collection.Sort | helpers/gee_getSenHTS.js:162 | `sort('system:time_start')` returns a permutation of the collection in ascending start order |
| Collection.SortOfSorted | helpers/gee_getSenHTS.js:162 | sorting a collection already in start order changes nothing |
| Aligner.Joined | helpers/gee_getSenHTS.js:144-148 | the joined collection: one `Image.cat(primary, secondary)` per joined pair, with the primary's start; what it holds is stated by `Aligner.JoinedStarts`, `Aligner.JoinedBands`, `Aligner.JoinedIncreasing` and `Aligner.JoinedSize` |
| Aligner.JoinedStarts | helpers/gee_getSenHTS.js:135-148 | an interval is in the joined collection exactly when both sensors have a composite starting then |
| Aligner.JoinedBands | helpers/gee_getSenHTS.js:146-148 | with distinct, non-clashing band lists, every joined image is the Sentinel-1 bands followed by the Sentinel-2 bands, unrenamed |
| Aligner.JoinedIncreasing | helpers/gee_getSenHTS.js:135-148 | in-order Sentinel-1 composites joined with distinct-dated Sentinel-2 composites stay in start order |
| Aligner.JoinedSize | helpers/gee_getSenHTS.js:135-148 | with one composite per start in each sensor, the join has distinct starts and is no longer than either input |
| Wrappers.MapAll | helpers/gee_getSenHTS.js:150 | mapping a fallible function succeeds exactly when it succeeds on every element; it then holds each element's result in place, and otherwise reports the error of some element |
| GapFiller.GapFill | helpers/gee_getSenHTS.js:150-162 | the mapped gap-fill of the joined collection, each window read from the unfilled collection; stated by `GapFiller.FillAll`, and on well-formed images by `Pipeline.GapFillUniform` and `GapFiller.NoPropagation` |
| GapFiller.Window | helpers/gee_getSenHTS.js:151-153 | the averaging window holds exactly the joined images starting in `[t - 11, t + 11)`, and always the image at `t` itself |
| GapFiller.FillOne | helpers/gee_getSenHTS.js:150-161 | the fill succeeds exactly when the image fits the window mean; the result keeps `system:time_start`, gains one band, and its `doy` property is the day offset |
| GapFiller.FillAll | helpers/gee_getSenHTS.js:150-162 | the mapped fill succeeds exactly when every image's fill does, and then holds each image's fill in place |
| GapFiller.FillRule | helpers/gee_getSenHTS.js:158 | the per-pixel rule: a valid non-zero own value is kept, otherwise the window mean where there is one, otherwise 0; `GapFiller.FillRulePixel` proves that `mean.where(own, own).unmask(0)` computes it and `GapFiller.FilledBandRule` that every filled band follows it |
| GapFiller.DoyBand | helpers/gee_getSenHTS.js:159 | the appended `doy` band holding the Int16 day offset; `GapFiller.FillOneUniform` places it last and `Pipeline.FuseDoyBand` finds it in the fused image |
| GapFiller.FillRulePixel | helpers/gee_getSenHTS.js:158 | one pixel of `mean.where(own, own).unmask(0)` follows the fill rule whenever a valid own value implies a mean |
| GapFiller.FillOneUniform | helpers/gee_getSenHTS.js:150-161 | on images carrying the same distinct bands, the fill succeeds, keeps the bands in order, appends `doy` holding the Int16 day offset, and gives each band the fill rule's value |
| GapFiller.FilledBand | helpers/gee_getSenHTS.js:150-161 | a valid non-zero value is kept; a zero or masked value takes the window mean when there is one; a band masked throughout the window becomes 0; the result always has a value |
| GapFiller.FilledBandRule | helpers/gee_getSenHTS.js:150-161 | each filled band equals the fill rule applied to its own value and its window mean |
| GapFiller.FilledWithinWindow | helpers/gee_getSenHTS.js:150-161 | a filled value lies within the range of the valid window values, or is 0 when the band is masked throughout the window |
| GapFiller.ContributionsAt | helpers/gee_getSenHTS.js:153 | when every window image carries the same distinct bands, the values averaged for band `names[i]` are exactly the valid values at position `i`, in window order |
| GapFiller.WindowOnGrid | helpers/gee_getSenHTS.js:152-153 | with composites every 10 days, the window of interval `k` is exactly intervals `k - 1`, `k`, `k + 1` (those that exist) |
| GapFiller.MeanOfNeighbours | helpers/gee_getSenHTS.js:150-161 | on the grid, a masked pixel between valid neighbours `a` and `b` is filled with `(a + b) / 2` |
| GapFiller.FiveAndSevenGiveSix | helpers/gee_getSenHTS.js:150-161 | neighbours 5 and 7 around a masked pixel give 6 |
| GapFiller.FirstOfTwoGaps | helpers/gee_getSenHTS.js:150-161 | a first interval masked like its only neighbour is filled with 0 |
| GapFiller.SecondOfTwoGaps | helpers/gee_getSenHTS.js:150-161 | a second interval masked like the first takes the third interval's value |
| GapFiller.NoPropagation | helpers/gee_getSenHTS.js:150-162 | fills read the unfilled collection: with the first two intervals masked and the third valid, the second takes the third's value while the first becomes 0 |
| GapFiller.GridDoy | helpers/gee_getSenHTS.js:11 | with composites every 10 days from 1 January of the start year 2022, the `m`-th filled image has `doy` 10 * m, as property and as band |
| Dates.ToInt16 | helpers/gee_getSenHTS.js:159-160 | `toInt16` keeps values in the signed 16-bit range and saturates the others |
| Dates.YearStart | helpers/gee_getSenHTS.js:155-157 | the day number of 1 January of a year; `Dates.YearLength` proves consecutive year starts are 366 days apart in a leap year and 365 otherwise |
| Dates.YearLength | helpers/gee_getSenHTS.js:155-157 | a year has 366 days when it is a leap year and 365 otherwise |
| Dates.DayOffset | helpers/gee_getSenHTS.js:155-160 | the `doy` value is an Int16: the whole-day distance from 1 January of the start year when it lies in the Int16 range, and the nearer Int16 bound otherwise |
| Dates.DayOffsetWithinYear | helpers/gee_getSenHTS.js:155-160 | within the start year the offset runs from 0 on 1 January to 364, or 365 in a leap year |
| Stacker.Stacked | helpers/gee_getSenHTS.js:164 | the reference layout of the stack: every image's bands in collection order, the `k`-th image's renamed `<band>_<k>` for k > 0; `Stacker.StackIsStacked` proves the `iterate`/`addBands` fold builds it and `Stacker.StackedLength` gives its size |
| Stacker.StackFrom | helpers/gee_getSenHTS.js:164 | the fold keeps the accumulator's bands in front and keeps names distinct |
| Stacker.Stack | helpers/gee_getSenHTS.js:164 | the stack from `ee.Image([])` always has distinct band names |
| Stacker.StackedLength | helpers/gee_getSenHTS.js:164 | a stack of `n` images with the same bands has `n` times as many bands |
| Stacker.StackIsStacked | helpers/gee_getSenHTS.js:164 | with distinct, plain band names, the `iterate`/`addBands` fold lays the images out in order, the `k`-th image's band `b` named `b` for k = 0 and `b_k` otherwise |
| Stacker.Column | helpers/gee_getSenHTS.js:165 | a column holds band `i` of every image, in collection order, under that image's suffix |
| Stacker.MatchingStacked | helpers/gee_getSenHTS.js:165 | `<names[i]>.*` picks exactly band `i` of every image out of the stack, in image order |
| Stacker.SelectStacked | helpers/gee_getSenHTS.js:165 | selecting the patterns from `s` on succeeds and regroups the stack band by band from band `s` |
| Stacker.SelectEmptyStack | helpers/gee_getSenHTS.js:165 | on the stack of no image the first pattern matches nothing and the selection fails with it |
| Stacker.BandMajorFrom | helpers/gee_getSenHTS.js:164-165 | the band-major regrouping: the column of band `s`, then of each later band; `Stacker.SelectStacked` proves the selection yields it, `Stacker.BandMajorDistinct` and `Stacker.BandMajorFromHas` describe its bands |
| Stacker.BandMajorDistinct | helpers/gee_getSenHTS.js:165 | the regrouped bands have distinct names |
| Stacker.BandMajorFromHas | helpers/gee_getSenHTS.js:165 | band `i` of every image `m` is among the regrouped bands, under the name `names[i]` suffixed with `m` |
| Stacker.StackThenSelect | helpers/gee_getSenHTS.js:164-165 | stacking and selecting every band pattern succeeds on a non-empty collection and regroups the stack band by band, with distinct names |
| Stacker.StackThenSelectLength | helpers/gee_getSenHTS.js:164-165 | the selection holds bands-per-image times images bands |
| Stacker.StackThenSelectNamed | helpers/gee_getSenHTS.js:164-165 | reading `names[i]` suffixed with `m` from the selection gives band `i` of image `m` |
| Pipeline.GapFillUniform | helpers/gee_getSenHTS.js:150-162 | on images with the same distinct bands and no `doy`, the gap-fill succeeds, keeps the count and the starts, and appends `doy` to every image |
| Pipeline.SortUniform | helpers/gee_getSenHTS.js:162 | sorting keeps the images' band lists and the number of images |
| Pipeline.PreparedUniform | helpers/gee_getSenHTS.js:135-162 | with well-formed lists, the collection to stack has one image per joined interval, each with the bands `n1 ++ n2 ++ [doy]` |
| Pipeline.Prepared | helpers/gee_getSenHTS.js:135-162 | the gap-filled joined collection sorted by start, the input of the stack; stated by `Pipeline.PreparedUniform`, `Pipeline.PreparedFromJoined` and `Pipeline.PreparedInOrder` |
| Pipeline.FuseWith | helpers/gee_getSenHTS.js:135-165 | the stage for any band lists and patterns: join, gap-fill, sort, stack and select; stated by `Pipeline.FuseWithLayout` and `Pipeline.FuseWithBand` |
| Pipeline.FuseWithLayout | helpers/gee_getSenHTS.js:135-165 | for any well-formed lists, the fusion fails on the first pattern when no interval is joined; otherwise it succeeds with (bands + 1) x intervals distinct bands, regrouped band by band |
| Pipeline.FuseWithBand | helpers/gee_getSenHTS.js:135-165 | for any well-formed lists, band `i` of the `m`-th interval in start order is found in the fused image under list entry `i` suffixed with `m` |
| Pipeline.PreparedFromJoined | helpers/gee_getSenHTS.js:135-162 | every image to stack is the gap-fill of some joined image |
| Pipeline.PreparedInOrder | helpers/gee_getSenHTS.js:135-162 | with in-order composites the sort changes nothing, so the `m`-th image to stack is the fill of the `m`-th joined image |
| Pipeline.Fuse | helpers/gee_getSenHTS.js:135-165 | the stage with the script's lists and patterns; stated by `Pipeline.FuseLayout`, `Pipeline.FuseBand`, `Pipeline.FuseInOrder`, `Pipeline.FuseDoyBand` and `Pipeline.SilentSensor` |
| Pipeline.FuseLayout | helpers/gee_getSenHTS.js:135-165 | the script's fusion fails on `VV.*` when no interval is joined; otherwise it yields 17 distinct bands per joined interval, regrouped band by band |
| Pipeline.FuseBand | helpers/gee_getSenHTS.js:135-165 | band `STACK_BANDS[i]` of the `m`-th interval is in the fused image under that name suffixed with `m` |
| Pipeline.FuseInOrder | helpers/gee_getSenHTS.js:135-165 | with in-order composites, fused band `STACK_BANDS[i]` suffixed with `m` holds band `i` of the gap-filled `m`-th joined image |
| Pipeline.FuseDoyBand | helpers/gee_getSenHTS.js:155-165 | `doy` suffixed with `m` holds the Int16 day offset of the `m`-th interval's start |
| Pipeline.SilentSensor | helpers/gee_getSenHTS.js:150-165 | when every Sentinel-2 pixel is masked, every Sentinel-2 band of the fused image exists and holds 0 |
| Pipeline.SilentWindow | helpers/gee_getSenHTS.js:146-153 | when every Sentinel-2 pixel is masked, every image in any window is masked in every Sentinel-2 band |
| Pipeline.SilentRadar | helpers/gee_getSenHTS.js:150-165 | when every Sentinel-1 pixel is masked, every Sentinel-1 band of the fused image exists and holds 0 |
| Pipeline.SilentRadarWindow | helpers/gee_getSenHTS.js:146-153 | when every Sentinel-1 pixel is masked, every image in any window is masked in every Sentinel-1 band |
| Pipeline.VisualisationNames | helpers/gee_getSenHTS.js:172 | the visualisation band names are `NDVI` suffixed with 5, 3 and 1 |
| Pipeline.VisualisationBands | helpers/gee_getSenHTS.js:164-172 | with at least six joined intervals, the bands `NDVI_5`, `NDVI_3` and `NDVI_1` named by the visualisation parameters exist in the fused image |

## Left out

- Everything before the fusion stage is not part of this model:
  - the region and the water, slope and DEM masks (lines 1-39);
  - the spectral indices (`addIndeces`, lines 42-71);
  - Sentinel-2 loading and cloud masking (lines 72-83);
  - the interval ranges from `composites.extractTimeRanges` (line 86);
  - Sentinel-1 preprocessing (lines 91-129);
  - the `harmonizedTS` composites (lines 89 and 131).

  Those external modules are not part of this model. The two composite
  sequences are parameters.
- Visualisation, map layers and export (lines 167-235) are left out. The one
  fact the visualisation relies on, that the `NDVI_5`, `NDVI_3` and `NDVI_1`
  bands exist, is stated by `Pipeline.VisualisationBands`.
- Lazy server-side evaluation, tiling, projections and the pixel grid are left
  out. The model follows one pixel, which is enough because every operation of
  the stage works pixel by pixel.
- Image properties other than `system:time_start` and `doy` are left out.
- Floating point is not modelled. Pixel values and means are exact reals, and
  there is no geomedian, because the composites are inputs.
- Dates are whole day numbers in UTC. `Date.difference(..., 'day')` can return
  a fraction for timestamps that are not at midnight; the model has only whole
  days. The start year is a parameter (2022 for the script's `start_date`), so
  the parsing and formatting of date strings is left out.
- Collection.Sort: the model states that the result is sorted and a
  permutation. It does not state which order images with equal starts keep,
  because Earth Engine does not promise one.
- Stacker.BandMajorFrom: positions in the selected image are stated
  structurally (columns laid out one after the other) and by band name, not as
  a closed-form index `i * |c| + m`.
- GapFiller.WindowOnGrid and the lemmas built on it assume composites exactly
  10 days apart from one origin day. Other layouts are covered by the general
  fill lemmas (`GapFiller.FilledBand`, `GapFiller.FilledWithinWindow`).
- Pipeline.FuseLayout and the other end-to-end lemmas assume every composite
  carries its sensor's full band list, which is what `harmonizedTS` is given.
  A malformed composite reaches `where` as a band-count mismatch
  (`Raster.Where`), but it is not followed through the stack.

/**
 * Stacking the filled collection into one image and selecting its bands:
 * `iterate` folds `addBands` over the collection from an empty image, so the
 * `k`-th image's bands arrive renamed `<band>_<k>` (bare for the first image),
 * and `select` with the patterns `<band>.*` regroups them band by band.
 */
module Stacker {
  import opened Wrappers
  import opened BandNames
  import opened Raster
  import opened Collection

  /** `c.iterate(function(image, previous) { return previous.addBands(image) }, acc)`. */
  function StackFrom(acc: Image, c: seq<Timed>): (r: Image)
    ensures |acc| <= |r| && r[..|acc|] == acc
    ensures DistinctNames(acc) ==> DistinctNames(r)
    decreases |c|
  {
    if c == [] then acc
    else
      var r := StackFrom(AddBands(acc, c[0].image), c[1..]);
      assert r[..|acc|] == AddBands(acc, c[0].image)[..|acc|];
      r
  }

  /** The fold from the empty image `ee.Image([])`; its band names are always distinct. */
  function Stack(c: seq<Timed>): (r: Image)
    ensures DistinctNames(r)
  {
    StackFrom([], c)
  }

  // ---------------------------------------------------------------------------
  // The stack described directly
  // ---------------------------------------------------------------------------

  /** The bands of `img` as they appear for the `k`-th image of the stack. */
  function Relabel(img: Image, k: nat): (r: Image)
    ensures |r| == |img|
    ensures forall j :: 0 <= j < |img| ==> r[j] == Band(Suffixed(img[j].name, k), img[j].value)
  {
    seq(|img|, j requires 0 <= j < |img| => Band(Suffixed(img[j].name, k), img[j].value))
  }

  /** The images of `c` relabelled by position and laid out one after the other. */
  function Stacked(c: seq<Timed>): Image
  {
    if c == [] then [] else Stacked(c[..|c| - 1]) + Relabel(c[|c| - 1].image, |c| - 1)
  }

  /**
   * `a * n` by repeated addition: positions and sizes in the regrouped stack
   * are stated with it so that they stay linear for the solver.
   */
  function Times(a: nat, n: nat): nat
  {
    if a == 0 then 0 else n + Times(a - 1, n)
  }

  /** Repeated addition is multiplication. */
  lemma {:induction false} TimesIsProduct(a: nat, n: nat)
    ensures Times(a, n) == a * n
  {
    if a > 0 {
      TimesIsProduct(a - 1, n);
    }
  }

  /** A stack of `n` images with `|names|` bands each has `n * |names|` bands. */
  lemma {:induction false} StackedLength(c: seq<Timed>, names: seq<string>)
    requires Uniform(c, names)
    ensures |Stacked(c)| == Times(|c|, |names|)
  {
    if c != [] {
      var init := c[..|c| - 1];
      assert Uniform(init, names) by {
        forall x | x in init ensures NamesOf(x.image) == names {
          var m :| 0 <= m < |init| && init[m] == x;
          assert c[m] in c;
        }
      }
      StackedLength(init, names);
      assert c[|c| - 1] in c;
      assert |NamesOf(c[|c| - 1].image)| == |names|;
    }
  }

  /** The first `k` images of a collection whose images carry `names` also carry `names`. */
  lemma UniformPrefix(c: seq<Timed>, names: seq<string>, k: nat)
    requires Uniform(c, names) && k <= |c|
    ensures Uniform(c[..k], names)
  {
    forall x | x in c[..k] ensures NamesOf(x.image) == names {
      var m :| 0 <= m < k && c[..k][m] == x;
      assert c[m] in c;
    }
  }

  /** The last image of a collection whose images carry `names` carries them too, and so do the others. */
  lemma UniformLast(c: seq<Timed>, names: seq<string>)
    requires Uniform(c, names) && c != []
    ensures Uniform(c[..|c| - 1], names)
    ensures NamesOf(c[|c| - 1].image) == names
    ensures |c[|c| - 1].image| == |names|
  {
    UniformPrefix(c, names, |c| - 1);
    assert c[|c| - 1] in c;
  }

  /** Every band name of an image is present in its relabelled copy, under the copy's suffix. */
  lemma RelabelHas(img: Image, names: seq<string>, k: nat, j: nat)
    requires NamesOf(img) == names && j < |names|
    ensures Suffixed(names[j], k) in NameSet(Relabel(img, k))
  {
    var r := Relabel(img, k);
    assert r[j] in r;
  }

  /** The names of a stack are those of the stack without its last image and those of the last image, relabelled. */
  lemma StackedNameSet(c: seq<Timed>)
    requires c != []
    ensures NameSet(Stacked(c)) == NameSet(Stacked(c[..|c| - 1])) + NameSet(Relabel(c[|c| - 1].image, |c| - 1))
  {
    NameSetConcat(Stacked(c[..|c| - 1]), Relabel(c[|c| - 1].image, |c| - 1));
  }

  /** Every band name, suffixed with every image position, is a name of the stack. */
  lemma {:induction false} StackedHas(c: seq<Timed>, names: seq<string>, j: nat, m: nat)
    requires Uniform(c, names) && j < |names| && m < |c|
    ensures Suffixed(names[j], m) in NameSet(Stacked(c))
  {
    var n := |c| - 1;
    UniformLast(c, names);
    StackedNameSet(c);
    if m < n {
      StackedHas(c[..n], names, j, m);
    } else {
      assert m == n;
      RelabelHas(c[n].image, names, m, j);
    }
  }

  /** Every name of the stack is a band name suffixed with an image position; returns the two. */
  lemma {:induction false} StackedOnly(c: seq<Timed>, names: seq<string>, x: string) returns (j: nat, m: nat)
    requires Uniform(c, names) && x in NameSet(Stacked(c))
    ensures j < |names| && m < |c| && x == Suffixed(names[j], m)
  {
    var n := |c| - 1;
    var init, last := c[..n], Relabel(c[n].image, n);
    UniformLast(c, names);
    StackedNameSet(c);
    if x in NameSet(Stacked(init)) {
      j, m := StackedOnly(init, names, x);
    } else {
      NameSetMember(last, x);
      var p :| 0 <= p < |last| && last[p].name == x;
      j, m := p, n;
    }
  }

  /** The bands of the `k`-th image placed before band `i` have their names suffixed with `k`. */
  lemma PlacedBefore(prefix: seq<Timed>, img: Image, names: seq<string>, i: nat, x: string) returns (j: nat, m: nat)
    requires Uniform(prefix, names) && NamesOf(img) == names && i <= |img|
    requires x in NameSet(Stacked(prefix) + Relabel(img, |prefix|)[..i])
    ensures j < |names| && m <= |prefix| && x == Suffixed(names[j], m)
    ensures m == |prefix| ==> j < i
  {
    var out := Relabel(img, |prefix|)[..i];
    NameSetConcat(Stacked(prefix), out);
    if x in NameSet(Stacked(prefix)) {
      j, m := StackedOnly(prefix, names, x);
    } else {
      NameSetMember(out, x);
      var p :| 0 <= p < |out| && out[p].name == x;
      assert out[p] == Relabel(img, |prefix|)[p];
      assert img[p].name == names[p];
      j, m := p, |prefix|;
    }
  }

  /**
   * The name band `i` of the `k`-th image receives from `addBands`: for the first
   * image its own name, and for a later one the base suffixed with `k`.
   */
  lemma StepName(prefix: seq<Timed>, img: Image, names: seq<string>, i: nat)
    requires Uniform(prefix, names) && NamesOf(img) == names
    requires DistinctSeq(names) && AllPlain(names) && i < |img|
    ensures Relabel(img, |prefix|)[i].name == Rename(img[i].name, NameSet(Stacked(prefix) + Relabel(img, |prefix|)[..i]))
  {
    var k := |prefix|;
    var taken := NameSet(Stacked(prefix) + Relabel(img, k)[..i]);
    NameSetConcat(Stacked(prefix), Relabel(img, k)[..i]);
    var b := names[i];
    assert img[i].name == b;
    if k == 0 {
      if b in taken {
        var j, m := PlacedBefore(prefix, img, names, i, b);
      }
    } else {
      assert b in taken by {
        StackedHas(prefix, names, i, 0);
      }
      forall m | 1 <= m < k ensures Tagged(b, m) in taken {
        StackedHas(prefix, names, i, m);
      }
      assert Tagged(b, k) !in taken by {
        if Tagged(b, k) in taken {
          var j, m := PlacedBefore(prefix, img, names, i, Tagged(b, k));
          SuffixedEqual(b, k, names[j], m);
        }
      }
      RenameIsFirstFree(b, taken, k);
    }
  }

  /**
   * Adding the `k`-th image (bands `names`, distinct and plain) to the stack of
   * the first `k` renames band `b` to `b` for the first image and to `b_k` after.
   */
  lemma StackStep(prefix: seq<Timed>, img: Image, names: seq<string>)
    requires Uniform(prefix, names) && NamesOf(img) == names
    requires DistinctSeq(names) && AllPlain(names)
    ensures AddBands(Stacked(prefix), img) == Stacked(prefix) + Relabel(img, |prefix|)
  {
    var out := Relabel(img, |prefix|);
    forall i | 0 <= i < |img|
      ensures out[i].name == Rename(img[i].name, NameSet(Stacked(prefix) + out[..i]))
    {
      StepName(prefix, img, names, i);
    }
    AddBandsAs(Stacked(prefix), img, out);
  }

  /** One step of the fold: the image at position `k` is added to the accumulator. */
  lemma StackFromUnfold(acc: Image, c: seq<Timed>, k: nat)
    requires k < |c|
    ensures StackFrom(acc, c[k..]) == StackFrom(AddBands(acc, c[k].image), c[k + 1..])
  {
    assert c[k..][0] == c[k];
    assert c[k..][1..] == c[k + 1..];
  }

  /** The stack of the first `k + 1` images is that of the first `k` followed by image `k`, relabelled. */
  lemma StackedSnoc(c: seq<Timed>, k: nat)
    requires k < |c|
    ensures Stacked(c[..k + 1]) == Stacked(c[..k]) + Relabel(c[k].image, k)
  {
    assert c[..k + 1][..k] == c[..k];
    assert c[..k + 1][k] == c[k];
  }

  /** Folding the rest of `c` onto the stack of its first `k` images gives the stack of all of `c`. */
  lemma {:induction false} StackFromStacked(c: seq<Timed>, names: seq<string>, k: nat)
    requires Uniform(c, names) && DistinctSeq(names) && AllPlain(names)
    requires k <= |c|
    ensures StackFrom(Stacked(c[..k]), c[k..]) == Stacked(c)
    decreases |c| - k
  {
    if k == |c| {
      assert c[..k] == c;
      assert c[k..] == [];
    } else {
      UniformPrefix(c, names, k);
      assert c[k] in c;
      StackStep(c[..k], c[k].image, names);
      StackedSnoc(c, k);
      StackFromUnfold(Stacked(c[..k]), c, k);
      StackFromStacked(c, names, k + 1);
    }
  }

  /**
   * When every image carries the distinct, underscore-free bands `names`, the
   * `iterate`/`addBands` fold lays the images out in collection order, the `k`-th
   * image's band `b` named `b` for k = 0 and `b_k` otherwise.
   */
  lemma StackIsStacked(c: seq<Timed>, names: seq<string>)
    requires Uniform(c, names) && DistinctSeq(names) && AllPlain(names)
    ensures Stack(c) == Stacked(c)
  {
    assert c[..0] == [] && c[0..] == c;
    StackFromStacked(c, names, 0);
  }

  // ---------------------------------------------------------------------------
  // select with the patterns `<band>.*`
  // ---------------------------------------------------------------------------

  /** Band `i` of every image of `c`, relabelled by image position, in collection order. */
  function Column(c: seq<Timed>, i: nat): (r: Image)
    requires forall m :: 0 <= m < |c| ==> i < |c[m].image|
    ensures |r| == |c|
    ensures forall m :: 0 <= m < |c| ==> r[m] == Band(Suffixed(c[m].image[i].name, m), c[m].image[i].value)
  {
    if c == [] then []
    else
      var n := |c| - 1;
      Column(c[..n], i) + [Band(Suffixed(c[n].image[i].name, n), c[n].image[i].value)]
  }

  /** The columns `s`, `s + 1`, ... of `c` one after the other: the stack regrouped band by band. */
  function BandMajorFrom(c: seq<Timed>, width: nat, s: nat): Image
    requires forall m :: 0 <= m < |c| ==> |c[m].image| == width
    decreases width - s
  {
    if s >= width then [] else Column(c, s) + BandMajorFrom(c, width, s + 1)
  }

  /** When a pattern matches band `i` of `img` and no other band, the bands it matches from `s` on are `img[i]` or none. */
  lemma {:induction false} MatchingOnly(img: Image, prefix: string, i: nat, s: nat)
    requires i < |img| && s <= |img|
    requires forall j :: 0 <= j < |img| ==> (prefix <= img[j].name <==> j == i)
    ensures Matching(img[s..], prefix) == if s <= i then [img[i]] else []
    decreases |img| - s
  {
    if s < |img| {
      MatchingOnly(img, prefix, i, s + 1);
      assert img[s..][0] == img[s];
      assert img[s..][1..] == img[s + 1..];
    }
  }

  /** Among the relabelled bands of one image, `<names[i]>.*` matches exactly band `i`. */
  lemma MatchingRelabel(img: Image, names: seq<string>, k: nat, i: nat)
    requires NamesOf(img) == names && AllPlain(names) && PrefixFree(names)
    requires i < |names|
    ensures Matching(Relabel(img, k), names[i]) == [Relabel(img, k)[i]]
  {
    var r := Relabel(img, k);
    forall j | 0 <= j < |r| ensures names[i] <= r[j].name <==> j == i {
      PatternMatchesOwnBase(names, i, j, k);
      assert r[j].name == Suffixed(names[j], k);
    }
    MatchingOnly(r, names[i], i, 0);
    assert r[0..] == r;
  }

  /** `<names[i]>.*` picks out of the stack exactly column `i`. */
  lemma {:induction false} MatchingStacked(c: seq<Timed>, names: seq<string>, i: nat)
    requires Uniform(c, names) && AllPlain(names) && PrefixFree(names) && i < |names|
    ensures forall m :: 0 <= m < |c| ==> i < |c[m].image|
    ensures Matching(Stacked(c), names[i]) == Column(c, i)
  {
    forall m | 0 <= m < |c| ensures i < |c[m].image| {
      assert c[m] in c;
      assert |NamesOf(c[m].image)| == |names|;
    }
    if c != [] {
      var n := |c| - 1;
      UniformPrefix(c, names, n);
      MatchingStacked(c[..n], names, i);
      assert c[n] in c;
      MatchingConcat(Stacked(c[..n]), Relabel(c[n].image, n), names[i]);
      MatchingRelabel(c[n].image, names, n, i);
    }
  }

  /**
   * Selecting `<names[s]>.*`, `<names[s+1]>.*`, ... from the stack of a non-empty
   * collection succeeds and regroups the stack band by band.
   */
  lemma {:induction false} SelectStacked(c: seq<Timed>, names: seq<string>, s: nat)
    requires Uniform(c, names) && AllPlain(names) && PrefixFree(names)
    requires c != [] && s <= |names|
    ensures forall m :: 0 <= m < |c| ==> |c[m].image| == |names|
    ensures Select(Stacked(c), names[s..]) == Ok(BandMajorFrom(c, |names|, s))
    decreases |names| - s
  {
    forall m | 0 <= m < |c| ensures |c[m].image| == |names| {
      assert c[m] in c;
      assert |NamesOf(c[m].image)| == |names|;
    }
    if s < |names| {
      SelectStacked(c, names, s + 1);
      MatchingStacked(c, names, s);
      assert names[s..][0] == names[s];
      assert names[s..][1..] == names[s + 1..];
    }
  }

  /** With no image, the first pattern already matches nothing. */
  lemma SelectEmptyStack(names: seq<string>)
    requires names != []
    ensures Select(Stacked([]), names) == Err(NoMatch(names[0]))
  {
  }

  /** The columns `s` to `s + k - 1` of the last `k` hold `k * |c|` bands. */
  lemma {:induction false} BandMajorLength(c: seq<Timed>, width: nat, s: nat, k: nat)
    requires forall p :: 0 <= p < |c| ==> |c[p].image| == width
    requires s + k == width
    ensures |BandMajorFrom(c, width, s)| == Times(k, |c|)
    decreases k
  {
    if k > 0 {
      BandMajorLength(c, width, s + 1, k - 1);
    }
  }

  /** Every band of the regrouped stack is band `i >= s` of some image `m`, under that image's suffix. */
  lemma {:induction false} BandMajorNames(c: seq<Timed>, names: seq<string>, s: nat, x: string)
    requires forall p :: 0 <= p < |c| ==> NamesOf(c[p].image) == names && |c[p].image| == |names|
    ensures x in NameSet(BandMajorFrom(c, |names|, s)) ==>
      exists i, m :: s <= i < |names| && 0 <= m < |c| && x == Suffixed(names[i], m)
    decreases |names| - s
  {
    if s < |names| {
      BandMajorNames(c, names, s + 1, x);
      NameSetConcat(Column(c, s), BandMajorFrom(c, |names|, s + 1));
      NameSetMember(Column(c, s), x);
    }
  }

  /** The names of column `s` are distinct and none occurs in a later column. */
  lemma ColumnApart(c: seq<Timed>, names: seq<string>, s: nat)
    requires forall p :: 0 <= p < |c| ==> NamesOf(c[p].image) == names && |c[p].image| == |names|
    requires DistinctSeq(names) && AllPlain(names) && s < |names|
    ensures DistinctNames(Column(c, s))
    ensures NameSet(Column(c, s)) !! NameSet(BandMajorFrom(c, |names|, s + 1))
  {
    var col := Column(c, s);
    forall p, q | 0 <= p < q < |col| ensures col[p].name != col[q].name {
      SuffixedEqual(names[s], p, names[s], q);
    }
    forall x | x in NameSet(col) ensures x !in NameSet(BandMajorFrom(c, |names|, s + 1)) {
      NameSetMember(col, x);
      var m :| 0 <= m < |col| && col[m].name == x;
      assert x == Suffixed(names[s], m);
      BandMajorNames(c, names, s + 1, x);
      forall i, m' | s + 1 <= i < |names| && 0 <= m' < |c| ensures x != Suffixed(names[i], m') {
        SuffixedEqual(names[s], m, names[i], m');
      }
    }
  }

  /** In a stack of images with distinct, plain names, the regrouped bands have distinct names. */
  lemma {:induction false} BandMajorDistinct(c: seq<Timed>, names: seq<string>, s: nat)
    requires forall p :: 0 <= p < |c| ==> NamesOf(c[p].image) == names && |c[p].image| == |names|
    requires DistinctSeq(names) && AllPlain(names)
    ensures DistinctNames(BandMajorFrom(c, |names|, s))
    decreases |names| - s
  {
    if s < |names| {
      BandMajorDistinct(c, names, s + 1);
      ColumnApart(c, names, s);
      DistinctConcat(Column(c, s), BandMajorFrom(c, |names|, s + 1));
    }
  }

  /** Band `i` of every image `m` is in the columns from `s` on, when `s <= i`. */
  lemma {:induction false} BandMajorFromHas(c: seq<Timed>, width: nat, s: nat, i: nat, m: nat)
    requires forall p :: 0 <= p < |c| ==> |c[p].image| == width
    requires s <= i < width && m < |c|
    ensures Band(Suffixed(c[m].image[i].name, m), c[m].image[i].value) in BandMajorFrom(c, width, s)
    decreases i - s
  {
    var col := Column(c, s);
    var rest := BandMajorFrom(c, width, s + 1);
    assert BandMajorFrom(c, width, s) == col + rest;
    if i == s {
      assert col[m] in col;
    } else {
      BandMajorFromHas(c, width, s + 1, i, m);
    }
  }

  /**
   * Stacking images that all carry the distinct, plain, prefix-free bands
   * `names` and selecting `<b>.*` for every `b` of `names` regroups the stack
   * band by band, with distinct names.
   */
  lemma StackThenSelect(c: seq<Timed>, names: seq<string>)
    requires Uniform(c, names) && DistinctSeq(names) && AllPlain(names) && PrefixFree(names)
    requires c != []
    ensures forall m :: 0 <= m < |c| ==> |c[m].image| == |names|
    ensures Select(Stack(c), names) == Ok(BandMajorFrom(c, |names|, 0))
    ensures DistinctNames(BandMajorFrom(c, |names|, 0))
  {
    StackIsStacked(c, names);
    assert names[0..] == names;
    SelectStacked(c, names, 0);
    forall p | 0 <= p < |c| ensures NamesOf(c[p].image) == names {
      assert c[p] in c;
    }
    BandMajorDistinct(c, names, 0);
  }

  /** The selection from the stack holds `|names| * |c|` bands. */
  lemma StackThenSelectLength(c: seq<Timed>, names: seq<string>)
    requires Uniform(c, names) && DistinctSeq(names) && AllPlain(names) && PrefixFree(names)
    requires c != []
    ensures Select(Stack(c), names).Ok?
    ensures |Select(Stack(c), names).value| == Times(|names|, |c|)
  {
    StackThenSelect(c, names);
    BandMajorLength(c, |names|, 0, |names|);
  }

  /**
   * Read by name, the selection from the stack holds band `i` of image `m`
   * under `names[i]` suffixed with `m`.
   */
  lemma StackThenSelectNamed(c: seq<Timed>, names: seq<string>, i: nat, m: nat)
    requires Uniform(c, names) && DistinctSeq(names) && AllPlain(names) && PrefixFree(names)
    requires i < |names| && m < |c|
    ensures Select(Stack(c), names).Ok?
    ensures i < |c[m].image|
    ensures Suffixed(names[i], m) in NameSet(Select(Stack(c), names).value)
    ensures Lookup(Select(Stack(c), names).value, Suffixed(names[i], m)) == c[m].image[i].value
  {
    StackThenSelect(c, names);
    assert c[m] in c;
    assert c[m].image[i].name == NamesOf(c[m].image)[i] == names[i];
    BandMajorFromHas(c, |names|, 0, i, m);
    LookupMember(BandMajorFrom(c, |names|, 0), Band(Suffixed(names[i], m), c[m].image[i].value));
  }
}

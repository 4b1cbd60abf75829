/**
 * Earth Engine image primitives, sampled at one pixel.
 *
 * Every operation of the fusion stage works pixel by pixel, so an image is
 * modelled as its ordered list of bands, each holding the band's value at the
 * pixel under study, or `None` where the band is masked there.
 */
module Raster {
  import opened Wrappers
  import opened BandNames

  datatype Band = Band(name: string, value: Option<real>)

  type Image = seq<Band>

  /** What Earth Engine reports instead of an image. */
  datatype Error =
    | BandCountMismatch          // `where` given a test or value image whose bands do not line up
    | NoMatch(pattern: string)   // `select` given a pattern that matches no band

  function NameSet(img: Image): set<string>
  {
    set b | b in img :: b.name
  }

  /** The band names of `img`, in band order. */
  function NamesOf(img: Image): (names: seq<string>)
    ensures |names| == |img|
    ensures forall i :: 0 <= i < |img| ==> names[i] == img[i].name
  {
    seq(|img|, i requires 0 <= i < |img| => img[i].name)
  }

  predicate DistinctNames(img: Image)
  {
    forall i, j :: 0 <= i < j < |img| ==> img[i].name != img[j].name
  }

  lemma NameSetMember(img: Image, x: string)
    ensures x in NameSet(img) <==> exists i :: 0 <= i < |img| && img[i].name == x
  {
    if x in NameSet(img) {
      var b :| b in img && b.name == x;
      var i :| 0 <= i < |img| && img[i] == b;
    }
  }

  lemma NameSetConcat(a: Image, b: Image)
    ensures NameSet(a + b) == NameSet(a) + NameSet(b)
  {
    assert forall x :: x in a + b <==> x in a || x in b;
  }

  /** Two images with distinct names, sharing none, concatenate to one with distinct names. */
  lemma DistinctConcat(a: Image, b: Image)
    requires DistinctNames(a) && DistinctNames(b)
    requires NameSet(a) !! NameSet(b)
    ensures DistinctNames(a + b)
  {
    forall i, j | 0 <= i < j < |a + b| ensures (a + b)[i].name != (a + b)[j].name {
      if i < |a| && |a| <= j {
        assert a[i] in a && b[j - |a|] in b;
        assert a[i].name in NameSet(a) && b[j - |a|].name in NameSet(b);
      }
    }
  }

  // ---------------------------------------------------------------------------
  // Image.addBands (overwrite = false) and Image.cat
  // ---------------------------------------------------------------------------

  /**
   * `dst.addBands(src)`: the bands of `dst`, then those of `src` in order, each
   * renamed if its name is already used by a band placed before it.
   */
  function AddBands(dst: Image, src: Image): (r: Image)
    ensures |r| == |dst| + |src|
    ensures r[..|dst|] == dst
    ensures forall i :: 0 <= i < |src| ==> r[|dst| + i].value == src[i].value
    ensures DistinctNames(dst) ==> DistinctNames(r)
    decreases |src|
  {
    if src == [] then dst
    else
      var b := Band(Rename(src[0].name, NameSet(dst)), src[0].value);
      assert DistinctNames(dst) ==> DistinctNames(dst + [b]) by {
        NameSetMember(dst, b.name);
      }
      var r := AddBands(dst + [b], src[1..]);
      AppendedStep(dst, b, src, r);
      r
  }

  /** The step of `AddBands`: what the rest of the fold keeps, the whole fold keeps. */
  lemma AppendedStep(dst: Image, b: Band, src: Image, r: Image)
    requires src != [] && b.value == src[0].value
    requires |r| == |dst| + 1 + |src[1..]| && r[..|dst| + 1] == dst + [b]
    requires forall i :: 0 <= i < |src[1..]| ==> r[|dst| + 1 + i].value == src[1..][i].value
    ensures |r| == |dst| + |src| && r[..|dst|] == dst
    ensures forall i :: 0 <= i < |src| ==> r[|dst| + i].value == src[i].value
  {
    assert r[..|dst|] == r[..|dst| + 1][..|dst|];
    assert r[|dst|] == r[..|dst| + 1][|dst|] == b;
    forall i | 1 <= i < |src| ensures r[|dst| + i].value == src[i].value {
      assert r[|dst| + 1 + (i - 1)].value == src[1..][i - 1].value;
    }
  }

  /** Moving the first band of `out` onto `dst` keeps the bands placed before position `i + 1`. */
  lemma ShiftedPrefix(dst: Image, out: Image, i: nat)
    requires i + 1 <= |out|
    ensures (dst + [out[0]]) + out[1..][..i] == dst + out[..i + 1]
  {
    assert out[..i + 1] == [out[0]] + out[1..][..i];
  }

  /** Bands `out` that `AddBands` would place after `dst`, each renamed against everything placed before it. */
  predicate PlacedAs(dst: Image, src: Image, out: Image)
  {
    && |out| == |src|
    && (forall i :: 0 <= i < |src| ==> out[i].value == src[i].value)
    && (forall i :: 0 <= i < |src| ==> out[i].name == Rename(src[i].name, NameSet(dst + out[..i])))
  }

  /** Once the first band is placed, the rest of `out` is placed after it. */
  lemma PlacedAsTail(dst: Image, src: Image, out: Image)
    requires src != [] && PlacedAs(dst, src, out)
    ensures out[0] == Band(Rename(src[0].name, NameSet(dst)), src[0].value)
    ensures PlacedAs(dst + [out[0]], src[1..], out[1..])
  {
    assert dst + out[..0] == dst;
    var dst', src', out' := dst + [out[0]], src[1..], out[1..];
    forall i | 0 <= i < |src'|
      ensures out'[i].value == src'[i].value
      ensures out'[i].name == Rename(src'[i].name, NameSet(dst' + out'[..i]))
    {
      assert out'[i] == out[i + 1] && src'[i] == src[i + 1];
      ShiftedPrefix(dst, out, i);
    }
  }

  /** Placing the first band and then the rest is placing them all. */
  lemma ConsShift(dst: Image, out: Image)
    requires out != []
    ensures (dst + [out[0]]) + out[1..] == dst + out
  {
    assert out == [out[0]] + out[1..];
  }

  /**
   * `AddBands` appends exactly `out` when every band of `out` carries the value of
   * the band of `src` it comes from, under the name `Rename` gives it against
   * everything placed before it.
   */
  lemma {:induction false} AddBandsAs(dst: Image, src: Image, out: Image)
    requires PlacedAs(dst, src, out)
    ensures AddBands(dst, src) == dst + out
    decreases |src|
  {
    if src != [] {
      PlacedAsTail(dst, src, out);
      AddBandsAs(dst + [out[0]], src[1..], out[1..]);
      ConsShift(dst, out);
    }
  }

  /** `ee.Image.cat(a, b)`: the bands of `a` followed by those of `b`, with `a`'s properties. */
  function Cat(a: Image, b: Image): Image
  {
    AddBands(a, b)
  }

  /** Images whose names do not clash are concatenated without renaming. */
  lemma CatDisjoint(a: Image, b: Image)
    requires DistinctNames(b)
    requires NameSet(a) !! NameSet(b)
    ensures Cat(a, b) == a + b
  {
    forall i | 0 <= i < |b|
      ensures b[i].name == Rename(b[i].name, NameSet(a + b[..i]))
    {
      NameSetMember(a + b[..i], b[i].name);
      NameSetMember(b, b[i].name);
    }
    AddBandsAs(a, b, b);
  }

  // ---------------------------------------------------------------------------
  // Image.where and Image.unmask
  // ---------------------------------------------------------------------------

  /**
   * One pixel of `input.where(test, value)`: a masked input stays masked; where
   * test or value is masked the input is kept; otherwise a non-zero test selects
   * the value.
   */
  function WherePixel(input: Option<real>, test: Option<real>, value: Option<real>): (r: Option<real>)
    ensures input.None? ==> r.None?
    ensures (test.None? || value.None?) ==> r == input
    ensures input.Some? && test.Some? && value.Some? ==> r == (if test.value != 0.0 then value else input)
  {
    if input.None? then None
    else if test.Some? && value.Some? && test.value != 0.0 then value
    else input
  }

  /** A test or value image fits `input` when it has one band (used for all) or one per input band. */
  predicate Fits(img: Image, input: Image)
  {
    |img| == 1 || |img| == |input|
  }

  /** The band of `img` that goes with input band `i`. */
  function Partner(img: Image, i: nat): Band
    requires |img| == 1 || i < |img|
  {
    if |img| == 1 then img[0] else img[i]
  }

  /** `input.where(test, value)`, band by band; the bands keep the input's names. */
  function Where(input: Image, test: Image, value: Image): (r: Result<Image, Error>)
    ensures r.Ok? <==> Fits(test, input) && Fits(value, input)
    ensures r.Ok? ==> |r.value| == |input| && NamesOf(r.value) == NamesOf(input)
    ensures r.Ok? ==> forall i :: 0 <= i < |input| ==>
      r.value[i].value == WherePixel(input[i].value, Partner(test, i).value, Partner(value, i).value)
  {
    if !(Fits(test, input) && Fits(value, input)) then Err(BandCountMismatch)
    else
      Ok(seq(|input|, i requires 0 <= i < |input| =>
        Band(input[i].name, WherePixel(input[i].value, Partner(test, i).value, Partner(value, i).value))))
  }

  /** `img.unmask(fill)`: every masked pixel takes the value `fill`; valid pixels are unchanged. */
  function Unmask(img: Image, fill: real): (r: Image)
    ensures |r| == |img| && NamesOf(r) == NamesOf(img)
    ensures forall i :: 0 <= i < |img| ==> r[i].value.Some?
    ensures forall i :: 0 <= i < |img| ==> img[i].value.Some? ==> r[i].value == img[i].value
    ensures forall i :: 0 <= i < |img| ==> img[i].value.None? ==> r[i].value == Some(fill)
  {
    seq(|img|, i requires 0 <= i < |img| =>
      Band(img[i].name, if img[i].value.Some? then img[i].value else Some(fill)))
  }

  // ---------------------------------------------------------------------------
  // Image.select with name patterns `<prefix>.*`
  // ---------------------------------------------------------------------------

  /** The bands of `img` whose name matches `<prefix>.*`, in band order. */
  function Matching(img: Image, prefix: string): (r: Image)
    ensures forall b {:trigger b in r} {:trigger b in img} :: b in r <==> b in img && prefix <= b.name
    ensures |r| <= |img|
  {
    if img == [] then []
    else if prefix <= img[0].name then [img[0]] + Matching(img[1..], prefix)
    else Matching(img[1..], prefix)
  }

  lemma {:induction false} MatchingConcat(a: Image, b: Image, prefix: string)
    ensures Matching(a + b, prefix) == Matching(a, prefix) + Matching(b, prefix)
  {
    if a != [] {
      assert (a + b)[1..] == a[1..] + b;
      MatchingConcat(a[1..], b, prefix);
    } else {
      assert a + b == b;
    }
  }

  /**
   * `img.select(patterns)` where each pattern is `<prefix>.*`: for each pattern in
   * order, the bands it matches in band order; an error when a pattern matches
   * no band.
   */
  function Select(img: Image, prefixes: seq<string>): (r: Result<Image, Error>)
    ensures r.Ok? <==> forall i :: 0 <= i < |prefixes| ==> Matching(img, prefixes[i]) != []
    ensures r.Err? ==> exists i :: 0 <= i < |prefixes| && r.error == NoMatch(prefixes[i]) && Matching(img, prefixes[i]) == []
    ensures r.Ok? ==> forall b {:trigger b in r.value} {:trigger b in img} :: b in r.value <==> b in img && exists i :: 0 <= i < |prefixes| && prefixes[i] <= b.name
  {
    if prefixes == [] then Ok([])
    else
      var m := Matching(img, prefixes[0]);
      if m == [] then Err(NoMatch(prefixes[0]))
      else
        var rest := Select(img, prefixes[1..]);
        if rest.Err? then rest
        else
          assert forall i :: 1 <= i < |prefixes| ==> prefixes[i] == prefixes[1..][i - 1];
          Ok(m + rest.value)
  }
}

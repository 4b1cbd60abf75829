/**
 * Band names and the renaming rule of `Image.addBands`: a band whose name is
 * already taken in the destination image is renamed `<name>_<n>`, with `n` the
 * least positive number for which that name is still free.
 */
module BandNames {

  /** The character of one decimal digit. */
  function DigitChar(d: nat): (c: char)
    requires d < 10
    ensures '0' <= c <= '9'
    ensures c as int - '0' as int == d
  {
    ('0' as int + d) as char
  }

  /** Decimal representation of `n`, most significant digit first, no leading zeros. */
  function Digits(n: nat): (s: string)
    ensures 1 <= |s|
    ensures forall i :: 0 <= i < |s| ==> '0' <= s[i] <= '9'
    ensures n < 10 <==> |s| == 1
  {
    if n < 10 then [DigitChar(n)] else Digits(n / 10) + [DigitChar(n % 10)]
  }

  /** Reads a string of decimal digits back into a number: the inverse of `Digits`. */
  function ParseDigits(s: string): nat
  {
    if s == [] then 0
    else
      var d := s[|s| - 1] as int - '0' as int;
      ParseDigits(s[..|s| - 1]) * 10 + (if 0 <= d < 10 then d else 0)
  }

  lemma {:induction false} ParseDigitsOfDigits(n: nat)
    ensures ParseDigits(Digits(n)) == n
  {
    if n >= 10 {
      var s := Digits(n);
      assert s[..|s| - 1] == Digits(n / 10);
      ParseDigitsOfDigits(n / 10);
    }
  }

  /** Distinct numbers are written differently. */
  lemma DigitsInjective(a: nat, b: nat)
    ensures Digits(a) == Digits(b) ==> a == b
  {
    ParseDigitsOfDigits(a);
    ParseDigitsOfDigits(b);
  }

  /** The name `addBands` gives to the `n`-th clash of `base`. */
  function Tagged(base: string, n: nat): string
  {
    base + "_" + Digits(n)
  }

  lemma TaggedInjective(base: string, a: nat, b: nat)
    ensures Tagged(base, a) == Tagged(base, b) ==> a == b
  {
    if Tagged(base, a) == Tagged(base, b) {
      assert Digits(a) == Tagged(base, a)[|base| + 1..];
      assert Digits(b) == Tagged(base, b)[|base| + 1..];
      DigitsInjective(a, b);
    }
  }

  /** The name of band `base` in the `k`-th image of a stack: bare for the first, `base_k` after. */
  function Suffixed(base: string, k: nat): string
  {
    if k == 0 then base else Tagged(base, k)
  }

  /** A base band name: no underscore, so a suffix can never be mistaken for part of it. */
  predicate Plain(name: string)
  {
    forall i :: 0 <= i < |name| ==> name[i] != '_'
  }

  /** A suffixed plain name is its base, then an underscore, then digits; a bare one has no underscore. */
  lemma SuffixedShape(base: string, k: nat)
    requires Plain(base)
    ensures k == 0 ==> Plain(Suffixed(base, k))
    ensures k != 0 ==> |base| < |Suffixed(base, k)| && Suffixed(base, k)[|base|] == '_'
    ensures Suffixed(base, k)[..|base|] == base
  {
  }

  /** Suffixed plain names identify both the base and the copy number. */
  lemma SuffixedInjective(b1: string, k1: nat, b2: string, k2: nat)
    requires Plain(b1) && Plain(b2)
    requires Suffixed(b1, k1) == Suffixed(b2, k2)
    ensures b1 == b2 && k1 == k2
  {
    SuffixedShape(b1, k1);
    SuffixedShape(b2, k2);
    var s := Suffixed(b1, k1);
    if k1 != 0 && k2 != 0 {
      TaggedInjective(b1, k1, k2);
    }
  }

  /** Two suffixed plain names are equal exactly when base and copy number both are. */
  lemma SuffixedEqual(b1: string, k1: nat, b2: string, k2: nat)
    requires Plain(b1) && Plain(b2)
    ensures Suffixed(b1, k1) == Suffixed(b2, k2) <==> b1 == b2 && k1 == k2
  {
    if Suffixed(b1, k1) == Suffixed(b2, k2) {
      SuffixedInjective(b1, k1, b2, k2);
    }
  }

  /** A proper subset is strictly smaller. */
  lemma ProperSubsetSmaller<T>(a: set<T>, b: set<T>)
    requires a < b
    ensures |a| < |b|
  {
    assert b - a != {};
    assert b == a + (b - a);
    assert a * (b - a) == {};
  }

  /** The names `Tagged(base, m)`, m >= n, that are in `taken`: what a search from `n` may still hit. */
  ghost function Pending(base: string, taken: set<string>, n: nat): set<string>
  {
    set t | t in taken && exists m: nat :: n <= m && t == Tagged(base, m)
  }

  /** The least `m >= n` with `Tagged(base, m)` not in `taken`. */
  function FirstFree(base: string, taken: set<string>, n: nat): (m: nat)
    ensures n <= m
    ensures Tagged(base, m) !in taken
    ensures forall j :: n <= j < m ==> Tagged(base, j) in taken
    decreases |Pending(base, taken, n)|
  {
    if Tagged(base, n) !in taken then n
    else
      assert |Pending(base, taken, n + 1)| < |Pending(base, taken, n)| by {
        assert Tagged(base, n) in Pending(base, taken, n);
        forall m: nat | n + 1 <= m
          ensures Tagged(base, m) != Tagged(base, n)
        {
          TaggedInjective(base, m, n);
        }
        ProperSubsetSmaller(Pending(base, taken, n + 1), Pending(base, taken, n));
      }
      FirstFree(base, taken, n + 1)
  }

  /** The name a band called `name` receives when added to an image whose names are `taken`. */
  function Rename(name: string, taken: set<string>): (r: string)
    ensures r !in taken
    ensures name !in taken ==> r == name
  {
    if name !in taken then name else Tagged(name, FirstFree(name, taken, 1))
  }

  /** A clashing name receives the first free suffix. */
  lemma RenameIsFirstFree(name: string, taken: set<string>, k: nat)
    requires name in taken
    requires 1 <= k && Tagged(name, k) !in taken
    requires forall j :: 1 <= j < k ==> Tagged(name, j) in taken
    ensures Rename(name, taken) == Tagged(name, k)
  {
    var m := FirstFree(name, taken, 1);
  }

  // ---------------------------------------------------------------------------
  // Properties of a list of base band names
  // ---------------------------------------------------------------------------

  predicate DistinctSeq(names: seq<string>)
  {
    forall i, j :: 0 <= i < j < |names| ==> names[i] != names[j]
  }

  predicate AllPlain(names: seq<string>)
  {
    forall i :: 0 <= i < |names| ==> Plain(names[i])
  }

  /** No name is a prefix of another, so the pattern `<name>.*` of one never matches another. */
  predicate PrefixFree(names: seq<string>)
  {
    forall i, j :: 0 <= i < |names| && 0 <= j < |names| && i != j ==> !(names[i] <= names[j])
  }

  /** In a prefix-free list of plain names, `<names[i]>.*` matches a suffixed name of `names[j]` only when i == j. */
  lemma PatternMatchesOwnBase(names: seq<string>, i: nat, j: nat, k: nat)
    requires AllPlain(names) && PrefixFree(names)
    requires i < |names| && j < |names|
    ensures names[i] <= Suffixed(names[j], k) <==> i == j
  {
    SuffixedShape(names[j], k);
  }
}

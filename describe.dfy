/**
 * parseDescription, identical in cmd/walker.go and cmd/tag.go: reads the version and the
 * distance to it out of a `git describe --tags` string such as "v1.0.0-2-ab23e5f1".
 */
module Describe {
  import opened Wrappers
  import opened Text
  import opened Semver

  /** Go's `offset++` on an int: wraps from the largest value to the smallest. */
  function IncInt64(x: int): (r: int)
    requires MinInt64 <= x <= MaxInt64
    ensures x < MaxInt64 ==> r == x + 1
    ensures x == MaxInt64 ==> r == MinInt64
  {
    if x == MaxInt64 then MinInt64 else x + 1
  }

  /** The start of the run of digits that ends just before position `q`. */
  function DigitRunStart(d: string, q: nat): (r: nat)
    requires q <= |d|
    ensures r <= q && AllDigits(d[r..q])
    ensures r > 0 ==> !IsDigit(d[r - 1])
  {
    if q > 0 && IsDigit(d[q - 1]) then
      var r := DigitRunStart(d, q - 1);
      assert d[r..q] == d[r..q - 1] + [d[q - 1]];
      r
    else q
  }

  /**
   * Where the match of `-(\d+)-[a-z0-9]{8}$` in `d` starts, if there is one. The match must end
   * the string, so its second '-' sits nine characters from the end, and its digits are the
   * whole run of digits before that '-', preceded by the first '-'.
   */
  function SuffixStart(d: string): (r: Option<nat>)
    ensures r.Some? ==> r.value + 11 <= |d|
  {
    if |d| < 11 then None
    else
      var q := |d| - 9;
      if d[q] != '-' || !(forall i :: q < i < |d| ==> IsLowerAlnum(d[i])) then None
      else
        var r := DigitRunStart(d, q);
        if r == q || r == 0 || d[r - 1] != '-' then None else Some(r - 1)
  }

  /** The version, if the base is SemVer, and the offset parseDescription gives back. */
  datatype Description = Description(version: Option<Ver>, offset: int)

  /**
   * parseDescription: without the suffix the offset is 1; with it, the offset is N + 1 and the
   * version is read from what precedes the suffix; a version that is not SemVer is nil, not an
   * error. The only error is strconv.Atoi's range error for an N beyond the largest int64.
   */
  function ParseDescription(d: string): Result<Description> {
    match SuffixStart(d)
    case None => Ok(Description(ParseTolerant(d), 1))
    case Some(p) =>
      var digits := d[p + 1..|d| - 9];
      if DigitsValue(digits) > MaxInt64 then
        Err("strconv.Atoi: parsing \"" + digits + "\": value out of range")
      else
        Ok(Description(ParseTolerant(d[..p]), IncInt64(DigitsValue(digits))))
  }

  /** The suffix `-N-hhhhhhhh` is found right after the base, whatever the base ends with. */
  lemma SuffixStartOf(base: string, n: string, hash: string)
    requires |n| > 0 && AllDigits(n) && |hash| == 8
    requires forall i :: 0 <= i < 8 ==> IsLowerAlnum(hash[i])
    ensures SuffixStart(base + "-" + n + "-" + hash) == Some(|base|)
  {
    var d := base + "-" + n + "-" + hash;
    var q := |d| - 9;
    assert d[q] == '-';
    forall i | q < i < |d| ensures IsLowerAlnum(d[i]) {
      assert d[i] == hash[i - q - 1];
    }
    DigitRunOf(d, |base| + 1, q);
  }

  /** The run of digits before `q` starts at `start` when digits fill start..q and none precedes. */
  lemma {:induction false} DigitRunOf(d: string, start: nat, q: nat)
    requires start <= q <= |d|
    requires forall i :: start <= i < q ==> IsDigit(d[i])
    requires start > 0 ==> !IsDigit(d[start - 1])
    ensures DigitRunStart(d, q) == start
    decreases q
  {
    if q > start {
      DigitRunOf(d, start, q - 1);
    }
  }

  /** The base and the digits of a string that ends with the suffix. */
  lemma SuffixParts(base: string, n: string, hash: string)
    requires |hash| == 8
    ensures var d := base + "-" + n + "-" + hash;
      d[..|base|] == base && d[|base| + 1..|d| - 9] == n
  {
  }

  /** A string that ends with the suffix: the error or the version of the base and N + 1. */
  lemma ParseDescriptionOf(base: string, n: string, hash: string)
    requires |n| > 0 && AllDigits(n) && |hash| == 8
    requires forall i :: 0 <= i < 8 ==> IsLowerAlnum(hash[i])
    ensures DigitsValue(n) > MaxInt64 <==> ParseDescription(base + "-" + n + "-" + hash).Err?
    ensures DigitsValue(n) <= MaxInt64 ==>
      ParseDescription(base + "-" + n + "-" + hash) == Ok(Description(ParseTolerant(base), IncInt64(DigitsValue(n))))
  {
    var d := base + "-" + n + "-" + hash;
    SuffixStartOf(base, n, hash);
    SuffixParts(base, n, hash);
    var p := |base|;
    assert SuffixStart(d) == Some(p);
    assert d[..p] == base && d[p + 1..|d| - 9] == n;
  }

  /**
   * The describe string of a commit `n` commits after a tag "v" + version reads back as that
   * version and offset n + 1.
   */
  lemma ParseDescribed(v: Ver, n: nat, hash: string)
    requires n < MaxInt64
    requires |hash| == 8 && forall i :: 0 <= i < 8 ==> IsLowerAlnum(hash[i])
    ensures ParseDescription("v" + VersionString(v) + "-" + NatToString(n) + "-" + hash)
            == Ok(Description(Some(v), n + 1))
  {
    NatToStringRoundTrip(n);
    ParseDescriptionOf("v" + VersionString(v), NatToString(n), hash);
    ParsePrinted(v);
  }

  /** A tag with no commit after it: offset 1. */
  lemma ParseTagged(v: Ver)
    ensures ParseDescription("v" + VersionString(v)) == Ok(Description(Some(v), 1))
  {
    var d := "v" + VersionString(v);
    VersionStringShape(v);
    assert SuffixStart(d) == None by {
      if |d| >= 11 {
        assert d[|d| - 9] == VersionString(v)[|d| - 10];
      }
    }
    ParsePrinted(v);
  }

  /** The error case and the offset: no error gives an offset of at least 1 unless N + 1 wraps. */
  lemma ParseDescriptionCases(d: string)
    ensures ParseDescription(d).Err? <==>
      SuffixStart(d).Some? && DigitsValue(d[SuffixStart(d).value + 1..|d| - 9]) > MaxInt64
    ensures ParseDescription(d).Ok? ==>
      ParseDescription(d).value.offset >= 1 ||
      (SuffixStart(d).Some? && d[SuffixStart(d).value + 1..|d| - 9] != [] &&
       DigitsValue(d[SuffixStart(d).value + 1..|d| - 9]) == MaxInt64)
  {
  }

  lemma DescribedText()
    ensures "v1.0.0-2-ab23e5f1" == "v" + VersionString(Ver(1, 0, 0)) + "-" + NatToString(2) + "-" + "ab23e5f1"
  {
    ReleaseText();
  }

  /** The cases of TestParseDescription in cmd/tag_test.go: a release tag. */
  lemma ParseDescriptionTagged()
    ensures ParseDescription("v1.0.0") == Ok(Description(Some(Ver(1, 0, 0)), 1))
  {
    ReleaseText();
    ParseTagged(Ver(1, 0, 0));
  }

  /** Two commits after a release tag. */
  lemma ParseDescriptionAfterTag()
    ensures ParseDescription("v1.0.0-2-ab23e5f1") == Ok(Description(Some(Ver(1, 0, 0)), 3))
  {
    DescribedText();
    ParseDescribed(Ver(1, 0, 0), 2, "ab23e5f1");
  }

  /** A tag that is not a version. */
  lemma ParseDescriptionLatest()
    ensures ParseDescription("latest") == Ok(Description(None, 1))
  {
    ParseTolerantLatest();
  }

  /** Three commits after a tag that is not a version. */
  lemma ParseDescriptionAfterLatest()
    ensures ParseDescription("latest-3-5570541a") == Ok(Description(None, 4))
  {
    LatestDescribedText();
    ParseTolerantLatest();
    ParseDescriptionOf("latest", "3", "5570541a");
  }

  lemma LatestDescribedText()
    ensures "latest-3-5570541a" == "latest" + "-" + "3" + "-" + "5570541a"
    ensures AllDigits("3") && DigitsValue("3") == 3
    ensures forall i :: 0 <= i < 8 ==> IsLowerAlnum("5570541a"[i])
  {
    assert "3"[..0] == "";
  }
}

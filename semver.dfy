/**
 * The part of blang/semver (v4) the release commands rely on: a version of three uint64
 * numbers, updated in place by the increment methods, its text form, and the subset of
 * ParseTolerant that reads plain dotted decimals.
 */
module Semver {
  import opened Wrappers
  import opened Text

  const U64Limit: int := 0x1_0000_0000_0000_0000

  newtype u64 = x: int | 0 <= x < 0x1_0000_0000_0000_0000

  /** Go's `x++` on a uint64: wraps to 0 past the largest value. */
  function Inc(x: u64): (r: u64)
    ensures x as int + 1 < U64Limit ==> r as int == x as int + 1
    ensures x as int + 1 == U64Limit ==> r == 0
  {
    ((x as int + 1) % U64Limit) as u64
  }

  /** The value of a semver.Version (without pre-release or build metadata). */
  datatype Ver = Ver(major: u64, minor: u64, patch: u64)

  /** The version 0.0.0 of `semver.Version{}`. */
  const Zero: Ver := Ver(0, 0, 0)

  /** What IncrementPatch, IncrementMinor and IncrementMajor leave in the version. */
  function IncPatch(v: Ver): Ver { v.(patch := Inc(v.patch)) }

  function IncMinor(v: Ver): Ver { v.(minor := Inc(v.minor), patch := 0) }

  function IncMajor(v: Ver): Ver { Ver(Inc(v.major), 0, 0) }

  /** The SemVer precedence of versions without pre-release: by major, then minor, then patch. */
  predicate Less(a: Ver, b: Ver) {
    a.major < b.major
    || (a.major == b.major && a.minor < b.minor)
    || (a.major == b.major && a.minor == b.minor && a.patch < b.patch)
  }

  /** A semver.Version the commands hold by pointer and update in place. */
  class Version {
    var major: u64
    var minor: u64
    var patch: u64

    function Value(): Ver
      reads this
    {
      Ver(major, minor, patch)
    }

    constructor (v: Ver)
      ensures Value() == v
    {
      major, minor, patch := v.major, v.minor, v.patch;
    }

    /** `*curr = *v`: copies another version into this one. */
    method Assign(v: Ver)
      modifies this
      ensures Value() == v
    {
      major, minor, patch := v.major, v.minor, v.patch;
    }

    method IncrementPatch()
      modifies this
      ensures Value() == IncPatch(old(Value()))
    {
      patch := Inc(patch);
    }

    method IncrementMinor()
      modifies this
      ensures Value() == IncMinor(old(Value()))
    {
      minor := Inc(minor);
      patch := 0;
    }

    method IncrementMajor()
      modifies this
      ensures Value() == IncMajor(old(Value()))
    {
      major := Inc(major);
      minor := 0;
      patch := 0;
    }
  }

  /**
   * Each increment, unless its number wraps, gives a greater version and resets the numbers
   * after the one it raises.
   */
  lemma IncrementsIncrease(v: Ver)
    ensures v.patch as int + 1 < U64Limit ==> Less(v, IncPatch(v)) && IncPatch(v).minor == v.minor
    ensures v.minor as int + 1 < U64Limit ==> Less(v, IncMinor(v)) && IncMinor(v).patch == 0
    ensures v.major as int + 1 < U64Limit ==> Less(v, IncMajor(v)) && IncMajor(v).minor == 0 && IncMajor(v).patch == 0
  {
  }

  /** Less is a strict order. */
  lemma LessStrictOrder(a: Ver, b: Ver, c: Ver)
    ensures !Less(a, a)
    ensures Less(a, b) ==> !Less(b, a)
    ensures Less(a, b) && Less(b, c) ==> Less(a, c)
  {
  }

  // ---------------------------------------------------------------------------
  // Text form.

  /** Version.String: "major.minor.patch". */
  function VersionString(v: Ver): string {
    NatToString(v.major as nat) + "." + NatToString(v.minor as nat) + "." + NatToString(v.patch as nat)
  }

  /** One number of a version: a non-empty run of decimal digits whose value fits in a uint64. */
  function ParseNumber(p: string): (r: Option<u64>)
    ensures r.Some? <==> |p| > 0 && AllDigits(p) && DigitsValue(p) < U64Limit
    ensures r.Some? ==> r.value as int == DigitsValue(p)
  {
    if |p| > 0 && AllDigits(p) && DigitsValue(p) < U64Limit then Some(DigitsValue(p) as u64) else None
  }

  /** The version of one to three dotted parts, the missing ones being 0. */
  function ParseParts(parts: seq<string>): (r: Option<Ver>)
    requires 1 <= |parts| <= 3
    ensures r.Some? ==> forall i :: 0 <= i < |parts| ==> ParseNumber(parts[i]).Some?
  {
    var major := ParseNumber(parts[0]);
    var minor := if |parts| > 1 then ParseNumber(parts[1]) else Some(0);
    var patch := if |parts| > 2 then ParseNumber(parts[2]) else Some(0);
    if major.Some? && minor.Some? && patch.Some? then Some(Ver(major.value, minor.value, patch.value))
    else None
  }

  /**
   * semver.ParseTolerant on a version without pre-release or build metadata: surrounding white
   * space and one leading "v" are dropped, and up to three dot-separated decimal numbers are
   * read, a missing minor or patch being 0.
   */
  function ParseTolerant(s: string): Option<Ver> {
    var t := TrimPrefix(TrimSpace(s), "v");
    ParseParts(SplitN(t, '.', 3))
  }

  /** The three numbers of a printed version, split back at the dots. */
  lemma SplitNDots(a: string, b: string, c: string)
    requires '.' !in a && '.' !in b && '.' !in c
    ensures SplitN(a + "." + b + "." + c, '.', 3) == [a, b, c]
  {
    var s := a + "." + b + "." + c;
    assert s[..|a|] == a && s[|a|] == '.';
    assert '.' !in s[..|a|];
    var t := s[|a| + 1..];
    assert t == b + "." + c;
    assert t[..|b|] == b && t[|b|] == '.';
    assert '.' !in t[..|b|];
    assert t[|b| + 1..] == c;
  }

  lemma DigitsNoDot(n: nat)
    ensures '.' !in NatToString(n) && 'v' !in NatToString(n) && '-' !in NatToString(n)
  {
    var s := NatToString(n);
    forall i | 0 <= i < |s| ensures s[i] != '.' && s[i] != 'v' && s[i] != '-' {
      assert IsDigit(s[i]);
    }
  }

  /** A printed version holds no '-' or 'v', and starts and ends with a digit. */
  lemma VersionStringShape(v: Ver)
    ensures '-' !in VersionString(v) && 'v' !in VersionString(v)
    ensures |VersionString(v)| > 0 && IsDigit(VersionString(v)[0])
    ensures IsDigit(VersionString(v)[|VersionString(v)| - 1])
    ensures !IsUnicodeSpace(VersionString(v)[0]) && VersionString(v)[0] != 'v'
    ensures !IsUnicodeSpace(VersionString(v)[|VersionString(v)| - 1])
  {
    DigitsNoDot(v.major as nat);
    DigitsNoDot(v.minor as nat);
    DigitsNoDot(v.patch as nat);
    var p := NatToString(v.patch as nat);
    assert VersionString(v)[|VersionString(v)| - 1] == p[|p| - 1];
  }

  /** The dotted parts of a printed version read back as its numbers. */
  lemma ParseVersionParts(v: Ver)
    ensures ParseParts(SplitN(VersionString(v), '.', 3)) == Some(v)
  {
    var a := NatToString(v.major as nat);
    var b := NatToString(v.minor as nat);
    var c := NatToString(v.patch as nat);
    DigitsNoDot(v.major as nat);
    DigitsNoDot(v.minor as nat);
    DigitsNoDot(v.patch as nat);
    SplitNDots(a, b, c);
    NatToStringRoundTrip(v.major as nat);
    NatToStringRoundTrip(v.minor as nat);
    NatToStringRoundTrip(v.patch as nat);
  }

  /** ParseTolerant reads back the text of every version. */
  lemma ParsePrintedPlain(v: Ver)
    ensures ParseTolerant(VersionString(v)) == Some(v)
  {
    var s := VersionString(v);
    VersionStringShape(v);
    ParseVersionParts(v);
    assert !IsUnicodeSpace(s[0]) && !IsUnicodeSpace(s[|s| - 1]);
    TrimSpaceUnchanged(s);
    assert !("v" <= s) by {
      assert s[0] != 'v';
    }
  }

  /** A leading "v" on text without surrounding white space changes nothing. */
  lemma ParseTolerantPrefix(s: string)
    requires |s| > 0 && !IsUnicodeSpace(s[0]) && !IsUnicodeSpace(s[|s| - 1]) && s[0] != 'v'
    ensures ParseTolerant("v" + s) == ParseTolerant(s)
  {
    TrimSpaceUnchanged(s);
    var vs := "v" + s;
    assert vs[|vs| - 1] == s[|s| - 1];
    TrimSpaceUnchanged(vs);
    assert vs[1..] == s;
    assert !("v" <= s);
  }

  /** ParseTolerant reads back the text of every version, with or without a leading "v". */
  lemma ParsePrinted(v: Ver)
    ensures ParseTolerant(VersionString(v)) == Some(v)
    ensures ParseTolerant("v" + VersionString(v)) == Some(v)
  {
    ParsePrintedPlain(v);
    VersionStringShape(v);
    ParseTolerantPrefix(VersionString(v));
  }

  lemma ReleaseText()
    ensures "v" + VersionString(Ver(1, 0, 0)) == "v1.0.0"
  {
    assert NatToString(1) == "1" && NatToString(0) == "0";
  }

  /** A case ParseTolerant meets in cmd/tag_test.go: a release tag. */
  lemma ParseTolerantRelease()
    ensures ParseTolerant("v1.0.0") == Some(Ver(1, 0, 0))
  {
    ReleaseText();
    ParsePrinted(Ver(1, 0, 0));
  }

  /** A case ParseTolerant meets in cmd/tag_test.go: a tag that is not a version. */
  lemma ParseTolerantLatest()
    ensures ParseTolerant("latest") == None
  {
    TrimSpaceUnchanged("latest");
    assert !("v" <= "latest");
    assert IndexOf("latest", '.') == None;
    assert SplitN("latest", '.', 3) == ["latest"];
    assert !IsDigit("latest"[0]);
  }
}

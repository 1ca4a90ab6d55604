/**
 * bumpVersion, written out three times in the source (cmd/release.go,
 * cmd/git-release/cmd/root.go and cmd/tag.go) with the same arithmetic and different
 * messages for a nil version: the version a bump turns the last release into, updated in
 * place, with the pre-1.0 rule that a major bump of a 0.x version raises the minor number.
 */
module Bumping {
  import opened Wrappers
  import opened Semver
  import opened Commit

  /** The nil-version messages of cmd/release.go and cmd/git-release/cmd/root.go, and of cmd/tag.go. */
  const ReleaseNilError: string := "current version must not be nil"
  const TagNilError: string := "Received nil pointer"

  /** The version a bump turns `v` into. */
  function Bumped(v: Ver, b: Bump): Ver {
    match b
    case BumpMajor => if v.major == 0 then IncMinor(v) else IncMajor(v)
    case BumpMinor => IncMinor(v)
    case BumpPatch => IncPatch(v)
    case BumpNone => v
  }

  /**
   * bumpVersion: a nil version is an error; otherwise the version is bumped in place (the
   * increment methods of blang/semver v4 always succeed).
   */
  method BumpVersion(curr: Version?, bump: Bump, nilError: string) returns (err: Option<string>)
    modifies curr
    ensures curr == null ==> err == Some(nilError)
    ensures curr != null ==> err == None && curr.Value() == Bumped(old(curr.Value()), bump)
  {
    if curr == null {
      return Some(nilError);
    }
    err := None;
    match bump
    case BumpMajor =>
      if curr.major == 0 {
        curr.IncrementMinor();
      } else {
        curr.IncrementMajor();
      }
    case BumpMinor =>
      curr.IncrementMinor();
    case BumpPatch =>
      curr.IncrementPatch();
    case BumpNone =>
  }

  /** No number of `v` is at the largest uint64, so no increment wraps. */
  predicate NoWrap(v: Ver) {
    v.major as int + 1 < U64Limit && v.minor as int + 1 < U64Limit && v.patch as int + 1 < U64Limit
  }

  /**
   * Every bump but NONE gives a strictly greater version, and NONE gives the same one; a
   * larger bump never gives a smaller version.
   */
  lemma BumpedIncreases(v: Ver, a: Bump, b: Bump)
    requires NoWrap(v)
    ensures a == BumpNone <==> Bumped(v, a) == v
    ensures a != BumpNone ==> Less(v, Bumped(v, a))
    ensures Rank(a) <= Rank(b) ==> !Less(Bumped(v, b), Bumped(v, a))
  {
    IncrementsIncrease(v);
  }

  /**
   * The numbers after the raised one are reset (items 6 to 8 of Semantic Versioning 2.0.0),
   * and on a 0.x version a major bump is a minor bump.
   */
  lemma BumpedResets(v: Ver)
    requires NoWrap(v)
    ensures Bumped(v, BumpPatch) == Ver(v.major, v.minor, v.patch + 1)
    ensures Bumped(v, BumpMinor) == Ver(v.major, v.minor + 1, 0)
    ensures v.major == 0 ==> Bumped(v, BumpMajor) == Bumped(v, BumpMinor)
    ensures v.major != 0 ==> Bumped(v, BumpMajor) == Ver(v.major + 1, 0, 0)
  {
  }

  /** The cases of TestBumpVersion in cmd/tag_test.go that hold a version. */
  lemma BumpedExamples()
    ensures Bumped(Ver(0, 0, 0), BumpPatch) == Ver(0, 0, 1)
    ensures Bumped(Ver(3, 4, 7), BumpPatch) == Ver(3, 4, 8)
    ensures Bumped(Ver(0, 0, 0), BumpMinor) == Ver(0, 1, 0)
    ensures Bumped(Ver(3, 4, 7), BumpMinor) == Ver(3, 5, 0)
    ensures Bumped(Ver(0, 0, 0), BumpMajor) == Ver(0, 1, 0)
    ensures Bumped(Ver(3, 4, 7), BumpMajor) == Ver(4, 0, 0)
    ensures Bumped(Ver(0, 0, 0), BumpNone) == Ver(0, 0, 0)
    ensures Bumped(Ver(3, 4, 7), BumpNone) == Ver(3, 4, 7)
  {
    BumpedResets(Ver(0, 0, 0));
    BumpedResets(Ver(3, 4, 7));
  }
}

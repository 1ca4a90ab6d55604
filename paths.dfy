/**
 * path.Join and path.Clean of Go's standard library, on slash-separated paths: the non-empty
 * elements joined by '/', then empty and "." segments dropped and each ".." folded into the
 * segment before it.
 */
module Paths {
  import opened Text

  /** A segment path.Clean keeps as it is. */
  predicate PlainSegment(s: string) {
    s != "" && s != "." && s != ".." && '/' !in s
  }

  /**
   * The non-empty elements, in order. The counts are NonEmptyCounts, the order NonEmptyConcat
   * and NonEmptyOne.
   */
  function NonEmpty(elems: seq<string>): (r: seq<string>)
    ensures |r| <= |elems|
    ensures forall i :: 0 <= i < |r| ==> r[i] != ""
    ensures forall e :: e in r <==> e in elems && e != ""
  {
    if elems == [] then []
    else if elems[0] == "" then NonEmpty(elems[1..])
    else [elems[0]] + NonEmpty(elems[1..])
  }

  /** Each non-empty element is kept as often as it occurs, and no empty one. */
  lemma {:induction false} NonEmptyCounts(elems: seq<string>)
    ensures multiset(NonEmpty(elems)) == multiset(elems)["" := 0]
    decreases |elems|
  {
    if elems != [] {
      assert elems == [elems[0]] + elems[1..];
      NonEmptyCounts(elems[1..]);
    }
  }

  /** One element is kept exactly when it is not empty. */
  lemma NonEmptyOne(e: string)
    ensures NonEmpty([e]) == if e == "" then [] else [e]
  {
    assert [e][1..] == [];
  }

  /** The filter works piece by piece, so it keeps the order of the elements. */
  lemma {:induction false} NonEmptyConcat(a: seq<string>, b: seq<string>)
    ensures NonEmpty(a + b) == NonEmpty(a) + NonEmpty(b)
    decreases |a|
  {
    if a != [] {
      assert (a + b)[0] == a[0] && (a + b)[1..] == a[1..] + b;
      NonEmptyConcat(a[1..], b);
    } else {
      assert a + b == b;
    }
  }

  /** `path.Join("a", "a")` keeps both elements. */
  lemma NonEmptyKeepsRepeats(e: string)
    requires e != ""
    ensures NonEmpty([e, e]) == [e, e]
  {
    NonEmptyConcat([e], [e]);
    NonEmptyOne(e);
    assert [e] + [e] == [e, e];
  }

  /** The segments path.Clean keeps, processed left to right onto `acc`. */
  function CleanSegments(segs: seq<string>, acc: seq<string>, rooted: bool): seq<string>
    decreases |segs|
  {
    if segs == [] then acc
    else
      var s := segs[0];
      if s == "" || s == "." then CleanSegments(segs[1..], acc, rooted)
      else if s == ".." then
        if |acc| > 0 && acc[|acc| - 1] != ".." then CleanSegments(segs[1..], acc[..|acc| - 1], rooted)
        else if rooted then CleanSegments(segs[1..], acc, rooted)
        else CleanSegments(segs[1..], acc + [".."], rooted)
      else CleanSegments(segs[1..], acc + [s], rooted)
  }

  /** path.Clean: "." for an empty result. */
  function Clean(p: string): (r: string)
    ensures r != ""
  {
    if p == "" then "."
    else
      var rooted := p[0] == '/';
      var out := (if rooted then "/" else "") + Join(CleanSegments(Split(p, '/'), [], rooted), '/');
      if out == "" then "." else out
  }

  /** path.Join: "" when every element is empty, otherwise the cleaned join. */
  function PathJoin(elems: seq<string>): string {
    var ne := NonEmpty(elems);
    if ne == [] then "" else Clean(Join(ne, '/'))
  }

  /** The non-empty elements of three, with the first and last non-empty. */
  lemma NonEmptyThree(a: string, b: string, c: string)
    requires a != "" && c != ""
    ensures NonEmpty([a, b, c]) == if b == "" then [a, c] else [a, b, c]
  {
    var e := [a, b, c];
    assert e[1..] == [b, c] && e[1..][1..] == [c] && e[1..][1..][1..] == [];
    assert NonEmpty([c]) == [c];
  }

  lemma {:induction false} CleanSegmentsPlain(segs: seq<string>, acc: seq<string>, rooted: bool)
    requires forall i :: 0 <= i < |segs| ==> PlainSegment(segs[i])
    ensures CleanSegments(segs, acc, rooted) == acc + segs
    decreases |segs|
  {
    if segs != [] {
      CleanSegmentsPlain(segs[1..], acc + [segs[0]], rooted);
      assert acc + [segs[0]] + segs[1..] == acc + segs;
    }
  }

  /** A path made of plain segments is already clean. */
  lemma CleanPlain(parts: seq<string>)
    requires |parts| > 0 && forall i :: 0 <= i < |parts| ==> PlainSegment(parts[i])
    ensures Clean(Join(parts, '/')) == Join(parts, '/')
  {
    var p := Join(parts, '/');
    SplitJoin(parts, '/');
    CleanSegmentsPlain(parts, [], false);
    assert [] + parts == parts;
    assert p[0] == parts[0][0];
  }

  /**
   * Joining elements that are empty or plain segments: the non-empty ones joined by '/', and ""
   * when there is none.
   */
  lemma PathJoinPlain(elems: seq<string>)
    requires forall i :: 0 <= i < |elems| ==> elems[i] == "" || PlainSegment(elems[i])
    ensures PathJoin(elems) == Join(NonEmpty(elems), '/')
  {
    var ne := NonEmpty(elems);
    if ne != [] {
      forall i | 0 <= i < |ne| ensures PlainSegment(ne[i]) {
        assert ne[i] in ne;
      }
      CleanPlain(ne);
    }
  }

  /** path.Clean folds "..": "a/../b" is "b". */
  lemma CleanFoldsParent()
    ensures Clean("a/../b") == "b"
  {
    assert "a/../b" == Join(["a", "..", "b"], '/');
    SplitJoin(["a", "..", "b"], '/');
    assert CleanSegments(["a", "..", "b"], [], false) == ["b"];
  }

  /** A rooted path cannot climb above "/". */
  lemma CleanRootParent()
    ensures Clean("/..") == "/"
  {
    assert "/.." == Join(["", ".."], '/');
    SplitJoin(["", ".."], '/');
    assert CleanSegments(["", ".."], [], true) == [];
  }

  /** A relative path keeps its leading "..". */
  lemma CleanKeepsLeadingParent()
    ensures Clean("../a") == "../a"
  {
    assert "../a" == Join(["..", "a"], '/');
    SplitJoin(["..", "a"], '/');
    assert CleanSegments(["..", "a"], [], false) == ["..", "a"];
  }
}

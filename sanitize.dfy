/**
 * The branch-name cleaning shared by pkg/format/branch.go and internal/format/branch.go: one
 * ReplaceAll of the forbidden-character pattern with nothing, one ReplaceAll of `\s+` with "-",
 * and a trim of the ends. Git's check-ref-format forbids these characters, ".." and "@{".
 */
module Sanitize {
  import opened Text

  /** The single characters of pkg/format/branch.go's pattern `[\x60\?\*~^:\\\[\]]`. */
  const PkgForbidden: set<char> := {'`', '?', '*', '~', '^', ':', '\\', '[', ']'}

  /** The single characters of internal/format/branch.go's pattern `[\?\*~^:\\]`. */
  const LegacyForbidden: set<char> := {'?', '*', '~', '^', ':', '\\'}

  /** The two-character alternatives `@{` and `\.{2}` of both patterns start at position i. */
  predicate PairAt(s: string, i: nat)
    requires i + 1 < |s|
  {
    (s[i] == '@' && s[i + 1] == '{') || (s[i] == '.' && s[i + 1] == '.')
  }

  /** No "@{" and no ".." anywhere in s. */
  predicate NoPair(s: string) {
    forall i :: 0 <= i < |s| - 1 ==> !PairAt(s, i)
  }

  /**
   * ReplaceAll of the pattern with "": matches are found left to right without overlapping,
   * and each is a forbidden character, "@{" or "..".
   */
  function RemoveForbidden(s: string, cut: set<char>): (r: string)
    ensures |r| <= |s| && (|r| == |s| ==> r == s)
    ensures forall i :: 0 <= i < |r| ==> r[i] !in cut
    ensures forall c :: c in r ==> c in s
    decreases |s|
  {
    if s == [] then []
    else if s[0] in cut then RemoveForbidden(s[1..], cut)
    else if |s| >= 2 && PairAt(s, 0) then RemoveForbidden(s[2..], cut)
    else
      var rest := RemoveForbidden(s[1..], cut);
      assert forall c :: c in [s[0]] + rest ==> c == s[0] || c in rest;
      [s[0]] + rest
  }

  /** The number of leading `\s` characters. */
  function LeadingBlank(s: string): (k: nat)
    ensures k <= |s|
    ensures forall i :: 0 <= i < k ==> IsBlank(s[i])
    ensures k < |s| ==> !IsBlank(s[k])
  {
    if |s| > 0 && IsBlank(s[0]) then 1 + LeadingBlank(s[1..]) else 0
  }

  /** ReplaceAll of `\s+` with "-": each maximal run of white space becomes one '-'. */
  function CollapseBlank(s: string): (r: string)
    ensures |r| <= |s|
    ensures forall i :: 0 <= i < |r| ==> !IsBlank(r[i])
    ensures forall c :: c in r ==> c == '-' || c in s
    ensures |s| > 0 ==> |r| > 0 && r[0] == (if IsBlank(s[0]) then '-' else s[0])
    decreases |s|
  {
    if s == [] then []
    else if IsBlank(s[0]) then
      var rest := CollapseBlank(s[LeadingBlank(s)..]);
      assert forall c :: c in "-" + rest ==> c == '-' || c in rest;
      "-" + rest
    else
      var rest := CollapseBlank(s[1..]);
      assert forall c :: c in [s[0]] + rest ==> c == s[0] || c in rest;
      [s[0]] + rest
  }

  /** The cleaning of pkg/format/branch.go: forbidden parts, white space, then '.' and '/' at the ends. */
  function SanitizePkg(s: string): string {
    Trim(CollapseBlank(RemoveForbidden(s, PkgForbidden)), {'.', '/'})
  }

  /** The cleaning of internal/format/branch.go: forbidden parts, white space, '/' at the ends, lower case. */
  function SanitizeLegacy(s: string): string {
    ToLower(Trim(CollapseBlank(RemoveForbidden(s, LegacyForbidden)), {'/'}))
  }

  /**
   * What SanitizePkg guarantees: no white space, none of the forbidden characters, and neither
   * '.' nor '/' at either end.
   */
  lemma SanitizePkgClean(s: string)
    ensures var r := SanitizePkg(s);
      (forall i :: 0 <= i < |r| ==> !IsBlank(r[i]) && r[i] !in PkgForbidden) &&
      (|r| > 0 ==> r[0] != '.' && r[0] != '/' && r[|r| - 1] != '.' && r[|r| - 1] != '/')
  {
    var t := CollapseBlank(RemoveForbidden(s, PkgForbidden));
    var r := SanitizePkg(s);
    forall i | 0 <= i < |r| ensures !IsBlank(r[i]) && r[i] !in PkgForbidden {
      assert r[i] in r;
      assert r[i] in t;
    }
  }

  /**
   * What SanitizeLegacy guarantees: no white space, none of its forbidden characters, no '/' at
   * either end and no upper-case letter.
   */
  lemma SanitizeLegacyClean(s: string)
    ensures var r := SanitizeLegacy(s);
      (forall i :: 0 <= i < |r| ==> !IsBlank(r[i]) && r[i] !in LegacyForbidden && !IsUpperAscii(r[i])) &&
      (|r| > 0 ==> r[0] != '/' && r[|r| - 1] != '/')
  {
    var t := Trim(CollapseBlank(RemoveForbidden(s, LegacyForbidden)), {'/'});
    var r := SanitizeLegacy(s);
    forall i | 0 <= i < |r| ensures !IsBlank(r[i]) && r[i] !in LegacyForbidden && !IsUpperAscii(r[i]) {
      assert t[i] in t;
    }
  }

  /** Text with nothing to remove is left as it is. */
  lemma {:induction false} RemoveForbiddenNone(s: string, cut: set<char>)
    requires forall i :: 0 <= i < |s| ==> s[i] !in cut
    requires NoPair(s)
    ensures RemoveForbidden(s, cut) == s
    decreases |s|
  {
    if s != [] {
      assert forall i :: 0 <= i < |s[1..]| - 1 ==> PairAt(s[1..], i) == PairAt(s, i + 1);
      RemoveForbiddenNone(s[1..], cut);
    }
  }

  /** Text without white space is left as it is by CollapseBlank. */
  lemma {:induction false} CollapseBlankNone(s: string)
    requires forall i :: 0 <= i < |s| ==> !IsBlank(s[i])
    ensures CollapseBlank(s) == s
    decreases |s|
  {
    if s != [] {
      CollapseBlankNone(s[1..]);
    }
  }

  /** Text before the first white space passes through CollapseBlank unchanged. */
  lemma {:induction false} CollapseBlankAfter(a: string, b: string)
    requires forall i :: 0 <= i < |a| ==> !IsBlank(a[i])
    ensures CollapseBlank(a + b) == a + CollapseBlank(b)
    decreases |a|
  {
    if a != [] {
      var s := a + b;
      assert s[0] == a[0] && !IsBlank(s[0]) && s[1..] == a[1..] + b;
      CollapseBlankAfter(a[1..], b);
      assert CollapseBlank(s) == [a[0]] + CollapseBlank(s[1..]);
      assert [a[0]] + (a[1..] + CollapseBlank(b)) == a + CollapseBlank(b);
    } else {
      assert a + b == b;
    }
  }

  /**
   * Where every white-space character is a lone space, collapsing is replacing each space
   * by '-'.
   */
  lemma {:induction false} CollapseSingleSpaces(s: string)
    requires forall i :: 0 <= i < |s| ==> IsBlank(s[i]) ==> s[i] == ' '
    requires forall i :: 0 <= i < |s| - 1 ==> !(s[i] == ' ' && s[i + 1] == ' ')
    ensures CollapseBlank(s) == ReplaceChar(s, ' ', '-')
    decreases |s|
  {
    if s != [] {
      if IsBlank(s[0]) {
        assert LeadingBlank(s[1..]) == 0;
        assert LeadingBlank(s) == 1;
      }
      CollapseSingleSpaces(s[1..]);
      assert ReplaceChar(s, ' ', '-') == [ReplaceChar(s, ' ', '-')[0]] + ReplaceChar(s[1..], ' ', '-');
    }
  }

  /**
   * A text with no cut character, no pair (a '.' or '@' can only end it) and only lone spaces
   * for white space comes out of the removal and the collapsing with its spaces as dashes.
   */
  lemma CleanSpaced(s: string, cut: set<char>)
    requires forall i :: 0 <= i < |s| ==> s[i] !in cut && (IsBlank(s[i]) ==> s[i] == ' ')
    requires forall i :: 0 <= i < |s| - 1 ==> s[i] != '.' && s[i] != '@'
    requires forall i :: 0 <= i < |s| - 1 ==> !(s[i] == ' ' && s[i + 1] == ' ')
    ensures CollapseBlank(RemoveForbidden(s, cut)) == ReplaceChar(s, ' ', '-')
  {
    assert NoPair(s);
    RemoveForbiddenNone(s, cut);
    CollapseSingleSpaces(s);
  }

  // ---------------------------------------------------------------------------
  // A single ReplaceAll can join the neighbours of a removed match into a new "..".

  /** One ReplaceAll turns "a.@{.b" into "a..b", with either pattern. */
  lemma RemoveLeavesDoubleDot(cut: set<char>)
    requires '.' !in cut && '@' !in cut && '{' !in cut && 'a' !in cut && 'b' !in cut
    ensures RemoveForbidden("a.@{.b", cut) == "a..b"
  {
    var s := "a.@{.b";
    assert s[1..][1..] == "@{.b" && s[1..][1..][2..] == ".b" && s[1..][1..][2..][1..] == "b";
    assert RemoveForbidden("b", cut) == "b";
    assert RemoveForbidden(".b", cut) == ".b";
  }

  /** The rest of the cleaning leaves "a..b" as it is. */
  lemma DoubleDotStays()
    ensures Trim(CollapseBlank("a..b"), {'.', '/'}) == "a..b"
    ensures ToLower(Trim(CollapseBlank("a..b"), {'/'})) == "a..b"
  {
    CollapseBlankNone("a..b");
    TrimUnchanged("a..b", {'/'});
    assert LeadingIn("a..b", {'.', '/'}) == 0;
    assert KeptBeforeTrailingIn("a..b", {'.', '/'}) == 4;
    assert ToLower("a..b") == "a..b";
  }

  /** The as-written cleanings both turn "a.@{.b" into "a..b", which still holds "..". */
  lemma SanitizeLeavesDoubleDot()
    ensures SanitizePkg("a.@{.b") == "a..b" && SanitizeLegacy("a.@{.b") == "a..b"
    ensures !NoPair("a..b")
  {
    assert PairAt("a..b", 1);
    RemoveLeavesDoubleDot(PkgForbidden);
    RemoveLeavesDoubleDot(LegacyForbidden);
    DoubleDotStays();
  }

  /** Text that one removal leaves unchanged has nothing left to remove. */
  lemma {:induction false} RemoveForbiddenFixed(s: string, cut: set<char>)
    requires RemoveForbidden(s, cut) == s
    ensures NoPair(s)
    decreases |s|
  {
    if s != [] {
      assert s[0] !in cut && !(|s| >= 2 && PairAt(s, 0));
      assert RemoveForbidden(s[1..], cut) == s[1..];
      RemoveForbiddenFixed(s[1..], cut);
      assert forall i :: 1 <= i < |s| - 1 ==> PairAt(s, i) == PairAt(s[1..], i - 1);
    }
  }

  /** The forbidden pattern removed again and again until nothing matches. */
  function RemoveAllForbidden(s: string, cut: set<char>): (r: string)
    ensures forall i :: 0 <= i < |r| ==> r[i] !in cut
    ensures NoPair(r) && RemoveForbidden(r, cut) == r
    ensures forall c :: c in r ==> c in s
    decreases |s|
  {
    var t := RemoveForbidden(s, cut);
    if t == s then
      RemoveForbiddenFixed(s, cut);
      s
    else RemoveAllForbidden(t, cut)
  }

  /** White space collapsing makes no "..", no "@{". */
  lemma {:induction false} CollapseBlankNoPair(s: string)
    requires NoPair(s)
    ensures NoPair(CollapseBlank(s))
    decreases |s|
  {
    if s != [] {
      var k := if IsBlank(s[0]) then LeadingBlank(s) else 1;
      var rest := s[k..];
      assert forall i :: 0 <= i < |rest| - 1 ==> PairAt(rest, i) == PairAt(s, i + k);
      CollapseBlankNoPair(rest);
      var r := CollapseBlank(s);
      var cr := CollapseBlank(rest);
      assert r == [r[0]] + cr;
      if |cr| > 0 && !IsBlank(s[0]) {
        assert r[0] == s[0] && r[1] == cr[0] && |s| > 1;
        if IsBlank(s[1]) {
          assert cr[0] == '-';
        } else {
          assert cr[0] == s[1] && !PairAt(s, 0);
        }
      }
      assert forall i :: 1 <= i < |r| - 1 ==> PairAt(r, i) == PairAt(cr, i - 1);
    }
  }

  /** Part of a text without "..", "@{" has none either. */
  lemma NoPairSlice(s: string, a: nat, b: nat)
    requires a <= b <= |s| && NoPair(s)
    ensures NoPair(s[a..b])
  {
    assert forall i :: 0 <= i < b - a - 1 ==> PairAt(s[a..b], i) == PairAt(s, a + i);
  }

  /** Trimming keeps a text free of "..", "@{" and of the characters it was free of. */
  lemma TrimKeeps(t: string, cut: set<char>, bad: set<char>)
    requires NoPair(t) && forall i :: 0 <= i < |t| ==> !IsBlank(t[i]) && t[i] !in bad
    ensures var r := Trim(t, cut); NoPair(r) && forall i :: 0 <= i < |r| ==> !IsBlank(r[i]) && r[i] !in bad
  {
    var l := LeadingIn(t, cut);
    var tl := t[l..];
    var k := KeptBeforeTrailingIn(tl, cut);
    NoPairSlice(t, l, |t|);
    assert t[l..|t|] == tl;
    NoPairSlice(tl, 0, k);
    assert tl[0..k] == tl[..k] == Trim(t, cut);
    assert forall i :: 0 <= i < k ==> tl[..k][i] == t[l + i];
  }

  /** The cleaning of pkg/format/branch.go with the forbidden parts removed until none is left. */
  function SanitizePkgFixed(s: string): (r: string)
    ensures NoPair(r)
    ensures forall i :: 0 <= i < |r| ==> !IsBlank(r[i]) && r[i] !in PkgForbidden
  {
    var u := RemoveAllForbidden(s, PkgForbidden);
    CollapseBlankNoPair(u);
    CollapseKeeps(u, PkgForbidden);
    TrimKeeps(CollapseBlank(u), {'.', '/'}, PkgForbidden);
    Trim(CollapseBlank(u), {'.', '/'})
  }

  /** Collapsing white space adds no character but '-'. */
  lemma CollapseKeeps(u: string, bad: set<char>)
    requires '-' !in bad && forall i :: 0 <= i < |u| ==> u[i] !in bad
    ensures forall i :: 0 <= i < |CollapseBlank(u)| ==> CollapseBlank(u)[i] !in bad
  {
    var t := CollapseBlank(u);
    forall i | 0 <= i < |t| ensures t[i] !in bad {
      assert t[i] in t;
    }
  }

  /** The fixed cleaning leaves nothing to clean: running it again changes nothing. */
  lemma SanitizePkgFixedIdempotent(s: string)
    ensures SanitizePkgFixed(SanitizePkgFixed(s)) == SanitizePkgFixed(s)
  {
    var r := SanitizePkgFixed(s);
    RemoveForbiddenNone(r, PkgForbidden);
    assert RemoveAllForbidden(r, PkgForbidden) == r;
    CollapseBlankNone(r);
    SanitizePkgTrimmed(s);
  }

  /** The fixed cleaning has no '.' or '/' at its ends, so trimming it again changes nothing. */
  lemma SanitizePkgTrimmed(s: string)
    ensures var r := SanitizePkgFixed(s); Trim(r, {'.', '/'}) == r
  {
    var r := SanitizePkgFixed(s);
    if |r| > 0 {
      TrimEnds(r, {'.', '/'});
    }
  }

  /** Lower-casing makes no "..", no "@{": it changes upper-case letters only. */
  lemma ToLowerNoPair(t: string)
    requires NoPair(t)
    ensures NoPair(ToLower(t))
  {
    var r := ToLower(t);
    forall i | 0 <= i < |r| - 1 ensures !PairAt(r, i) {
      assert !PairAt(t, i);
    }
  }

  /** The cleaning of internal/format/branch.go with the forbidden parts removed until none is left. */
  function SanitizeLegacyFixed(s: string): (r: string)
    ensures NoPair(r)
    ensures forall i :: 0 <= i < |r| ==> !IsBlank(r[i]) && r[i] !in LegacyForbidden && !IsUpperAscii(r[i])
  {
    var u := RemoveAllForbidden(s, LegacyForbidden);
    CollapseBlankNoPair(u);
    CollapseKeeps(u, LegacyForbidden);
    TrimKeeps(CollapseBlank(u), {'/'}, LegacyForbidden);
    ToLowerNoPair(Trim(CollapseBlank(u), {'/'}));
    ToLower(Trim(CollapseBlank(u), {'/'}))
  }

  /**
   * The fixed cleaning differs from the code's only where one removal pass leaves a pair: when
   * it leaves none, the two agree.
   */
  lemma SanitizePkgFixedAgrees(s: string)
    requires NoPair(RemoveForbidden(s, PkgForbidden))
    ensures SanitizePkgFixed(s) == SanitizePkg(s)
  {
    var t := RemoveForbidden(s, PkgForbidden);
    RemoveForbiddenNone(t, PkgForbidden);
    assert RemoveAllForbidden(t, PkgForbidden) == t;
  }

  /** The same for the cleaning of internal/format/branch.go. */
  lemma SanitizeLegacyFixedAgrees(s: string)
    requires NoPair(RemoveForbidden(s, LegacyForbidden))
    ensures SanitizeLegacyFixed(s) == SanitizeLegacy(s)
  {
    var t := RemoveForbidden(s, LegacyForbidden);
    RemoveForbiddenNone(t, LegacyForbidden);
    assert RemoveAllForbidden(t, LegacyForbidden) == t;
  }

  // ---------------------------------------------------------------------------
  // The dirty-branch vectors of pkg/format/branch_test.go and internal/format/branch_test.go,
  // taken one cleaning step at a time over pieces of the input.

  /** The removal works piece by piece where the first piece cannot start a pair at its end. */
  lemma {:induction false} RemoveForbiddenConcat(x: string, y: string, cut: set<char>)
    requires |x| == 0 || (x[|x| - 1] != '@' && x[|x| - 1] != '.')
    ensures RemoveForbidden(x + y, cut) == RemoveForbidden(x, cut) + RemoveForbidden(y, cut)
    decreases |x|
  {
    var s := x + y;
    if x == [] {
      assert s == y;
    } else if x[0] in cut {
      assert s[0] == x[0] && s[1..] == x[1..] + y;
      RemoveForbiddenConcat(x[1..], y, cut);
    } else if |x| >= 2 && PairAt(x, 0) {
      assert s[0] == x[0] && s[1] == x[1] && PairAt(s, 0) && s[2..] == x[2..] + y;
      RemoveForbiddenConcat(x[2..], y, cut);
    } else {
      assert s[0] == x[0] && s[1..] == x[1..] + y;
      assert |x| >= 2 ==> s[1] == x[1];
      assert !(|s| >= 2 && PairAt(s, 0));
      RemoveForbiddenConcat(x[1..], y, cut);
      assert [x[0]] + (RemoveForbidden(x[1..], cut) + RemoveForbidden(y, cut)) ==
        ([x[0]] + RemoveForbidden(x[1..], cut)) + RemoveForbidden(y, cut);
    }
  }

  /** A run of white space does not reach past a piece followed by a non-blank character. */
  lemma {:induction false} LeadingBlankConcat(x: string, y: string)
    requires y == [] || !IsBlank(y[0])
    ensures LeadingBlank(x + y) == LeadingBlank(x)
    decreases |x|
  {
    if x == [] {
      assert x + y == y;
    } else if IsBlank(x[0]) {
      assert (x + y)[0] == x[0] && (x + y)[1..] == x[1..] + y;
      LeadingBlankConcat(x[1..], y);
    } else {
      assert (x + y)[0] == x[0];
    }
  }

  /** A run of white space collapses into one '-' before a non-blank character or the end. */
  lemma CollapseBlankRun(b: string, w: string)
    requires |b| > 0 && forall i :: 0 <= i < |b| ==> IsBlank(b[i])
    requires w == [] || !IsBlank(w[0])
    ensures CollapseBlank(b + w) == "-" + CollapseBlank(w)
  {
    var s := b + w;
    LeadingBlankConcat(b, w);
    assert LeadingBlank(b) == |b|;
    assert s[0] == b[0] && s[|b|..] == w;
  }

  /** A piece made only of cut characters is removed entirely. */
  lemma {:induction false} RemoveForbiddenAllCut(x: string, cut: set<char>)
    requires forall i :: 0 <= i < |x| ==> x[i] in cut
    ensures RemoveForbidden(x, cut) == ""
    decreases |x|
  {
    if x != [] {
      RemoveForbiddenAllCut(x[1..], cut);
    }
  }

  /** ".." followed by a clean piece leaves the piece. */
  lemma RemoveDoubleDot(y: string, cut: set<char>)
    requires forall i :: 0 <= i < |y| ==> y[i] !in cut
    requires NoPair(y) && '.' !in cut
    ensures RemoveForbidden(".." + y, cut) == y
  {
    var s := ".." + y;
    assert PairAt(s, 0) && s[2..] == y;
    RemoveForbiddenNone(y, cut);
  }

  /** A clean piece between two removed ones. */
  lemma RemoveBetween(x: string, y: string, z: string, cut: set<char>)
    requires |x| > 0 && (forall i :: 0 <= i < |x| ==> x[i] in cut) && x[|x| - 1] != '@' && x[|x| - 1] != '.'
    requires forall i :: 0 <= i < |y| ==> y[i] !in cut
    requires NoPair(y) && |y| > 0 && y[|y| - 1] != '@' && y[|y| - 1] != '.'
    ensures RemoveForbidden(x + (y + z), cut) == y + RemoveForbidden(z, cut)
  {
    RemoveForbiddenConcat(x, y + z, cut);
    RemoveForbiddenConcat(y, z, cut);
    RemoveForbiddenAllCut(x, cut);
    RemoveForbiddenNone(y, cut);
  }

  /** "].." before the final '/' leaves the '/'. */
  lemma RemoveDotsEnd(tail: string, cut: set<char>)
    requires tail == "/" && ']' in cut && '.' !in cut && '/' !in cut
    ensures RemoveForbidden("]" + (".." + tail), cut) == tail
  {
    RemoveDoubleDot(tail, cut);
    RemoveForbiddenConcat("]", ".." + tail, cut);
    RemoveForbiddenAllCut("]", cut);
  }

  /** The end of the pkg input: "[cleaned].." before the final '/'. */
  lemma RemovePkgEnd(cleaned: string, tail: string)
    requires cleaned == "cleaned" && tail == "/"
    ensures RemoveForbidden("[" + (cleaned + ("]" + (".." + tail))), PkgForbidden) == cleaned + tail
  {
    RemoveDotsEnd(tail, PkgForbidden);
    RemoveBetween("[", cleaned, "]" + (".." + tail), PkgForbidden);
  }

  /** The marks around "be ": a '?' before it, and four more and a space after it. */
  lemma RemoveMarks(be: string, rest: string, cut: set<char>)
    requires be == "be " && cut <= PkgForbidden && LegacyForbidden <= cut
    ensures RemoveForbidden("?" + (be + ("*~^:\\" + (" " + rest))), cut) == be + (" " + RemoveForbidden(rest, cut))
  {
    RemoveBetween("*~^:\\", " ", rest, cut);
    RemoveBetween("?", be, "*~^:\\" + (" " + rest), cut);
  }

  /** The back-quotes around "should" and the space after them. */
  lemma RemoveQuotes(should: string, rest: string)
    requires should == "should"
    ensures RemoveForbidden("`" + (should + ("`" + (" " + rest))), PkgForbidden) ==
      should + (" " + RemoveForbidden(rest, PkgForbidden))
  {
    RemoveBetween("`", " ", rest, PkgForbidden);
    RemoveBetween("`", should, "`" + (" " + rest), PkgForbidden);
  }

  /** The head of both inputs has nothing to remove. */
  lemma CleanHead(head: string)
    requires head == "/A dirty branch/"
    ensures (forall i :: 0 <= i < |head| ==> head[i] !in PkgForbidden) && NoPair(head)
    ensures head[|head| - 1] == '/'
  {
  }

  /** A clean head is kept in front of what the removal makes of the rest. */
  lemma RemoveAfterHead(head: string, rest: string, cut: set<char>)
    requires head == "/A dirty branch/" && cut <= PkgForbidden
    ensures RemoveForbidden(head + rest, cut) == head + RemoveForbidden(rest, cut)
  {
    CleanHead(head);
    RemoveForbiddenConcat(head, rest, cut);
    RemoveForbiddenNone(head, cut);
  }

  /** The removal on the input of pkg/format/branch_test.go, written as its pieces. */
  lemma RemovePkgPieces(head: string, should: string, be: string, cleaned: string, tail: string)
    requires head == "/A dirty branch/" && should == "should" && be == "be " && cleaned == "cleaned" && tail == "/"
    ensures RemoveForbidden(head + ("`" + (should + ("`" + (" " + ("?" + (be + ("*~^:\\" + (" " +
      ("[" + (cleaned + ("]" + (".." + tail)))))))))))), PkgForbidden) ==
      head + (should + (" " + (be + (" " + (cleaned + tail)))))
  {
    var cut := PkgForbidden;
    var r3 := "[" + (cleaned + ("]" + (".." + tail)));
    RemovePkgEnd(cleaned, tail);
    var r2 := "?" + (be + ("*~^:\\" + (" " + r3)));
    RemoveMarks(be, r3, cut);
    var r1 := "`" + (should + ("`" + (" " + r2)));
    RemoveQuotes(should, r2);
    RemoveAfterHead(head, r1, cut);
  }

  /** The end of the internal input: "cleaned.." before the final '/'. */
  lemma RemoveLegacyEnd(cleaned: string, tail: string)
    requires cleaned == "cleaned" && tail == "/"
    ensures RemoveForbidden(cleaned + (".." + tail), LegacyForbidden) == cleaned + tail
  {
    RemoveDoubleDot(tail, LegacyForbidden);
    RemoveForbiddenConcat(cleaned, ".." + tail, LegacyForbidden);
    RemoveForbiddenNone(cleaned, LegacyForbidden);
  }

  /** "should" and a space are kept in front of the rest of the internal input. */
  lemma RemoveLegacyShould(should: string, rest: string)
    requires should == "should"
    ensures RemoveForbidden(should + (" " + rest), LegacyForbidden) == should + (" " + RemoveForbidden(rest, LegacyForbidden))
  {
    var cut := LegacyForbidden;
    RemoveForbiddenConcat(should + " ", rest, cut);
    RemoveForbiddenNone(should + " ", cut);
    assert should + (" " + rest) == (should + " ") + rest;
  }

  /** The removal on the input of internal/format/branch_test.go, written as its pieces. */
  lemma RemoveLegacyPieces(head: string, should: string, be: string, cleaned: string, tail: string)
    requires head == "/A dirty branch/" && should == "should" && be == "be " && cleaned == "cleaned" && tail == "/"
    ensures RemoveForbidden(head + (should + (" " + ("?" + (be + ("*~^:\\" + (" " +
      (cleaned + (".." + tail)))))))), LegacyForbidden) ==
      head + (should + (" " + (be + (" " + (cleaned + tail)))))
  {
    var cut := LegacyForbidden;
    var r3 := cleaned + (".." + tail);
    RemoveLegacyEnd(cleaned, tail);
    var r2 := "?" + (be + ("*~^:\\" + (" " + r3)));
    RemoveMarks(be, r3, cut);
    RemoveLegacyShould(should, r2);
    RemoveAfterHead(head, should + (" " + r2), cut);
  }

  /** The words of the two test inputs. */
  const Head: string := "/A dirty branch/"
  const Should: string := "should"
  const Be: string := "be "
  const Cleaned: string := "cleaned"
  const Tail: string := "/"

  /** The input of pkg/format/branch_test.go, in the pieces the removal sees. */
  const PkgDirty: string := Head + ("`" + (Should + ("`" + (" " + ("?" + (Be + ("*~^:\\" + (" " +
      ("[" + (Cleaned + ("]" + (".." + Tail))))))))))))

  /** The input of internal/format/branch_test.go, in the pieces the removal sees. */
  const LegacyDirty: string := Head + (Should + (" " + ("?" + (Be + ("*~^:\\" + (" " + (Cleaned + (".." + Tail))))))))

  /** What the removal leaves of both inputs. */
  const Removed: string := Head + (Should + (" " + (Be + (" " + (Cleaned + Tail)))))

  lemma RemovePkgDirty()
    ensures RemoveForbidden(PkgDirty, PkgForbidden) == Removed
  {
    RemovePkgPieces(Head, Should, Be, Cleaned, Tail);
  }

  lemma RemoveLegacyDirty()
    ensures RemoveForbidden(LegacyDirty, LegacyForbidden) == Removed
  {
    RemoveLegacyPieces(Head, Should, Be, Cleaned, Tail);
  }

  /** The inputs and the removal's result, as the texts of the tests spell them. */
  lemma PkgDirtyMarks()
    ensures "`" + (Should + ("`" + (" " + ("?" + (Be + ("*~^:\\" + (" " + ("[" + (Cleaned + ("]" + (".." + Tail)))))))))))
      == "`should` ?be *~^:\\ [cleaned]../"
  {
  }

  lemma PkgDirtyText()
    ensures PkgDirty == Head + "`should` ?be *~^:\\ [cleaned]../" && Head == "/A dirty branch/"
  {
    PkgDirtyMarks();
  }

  lemma LegacyDirtyText()
    ensures LegacyDirty == Head + "should ?be *~^:\\ cleaned../"
  {
  }

  lemma RemovedText()
    ensures Removed == Head + "should be  cleaned/"
  {
  }

  /** The words of the removal's result, between its runs of white space. */
  const W1: string := "/A"
  const W2: string := "dirty"
  const W3: string := "branch/should"
  const W4: string := "be"
  const W5: string := "cleaned/"

  /** What collapsing leaves. */
  const Collapsed: string := "/A-dirty-branch/should-be-cleaned/"

  lemma RemovedWords()
    ensures Removed == W1 + (" " + (W2 + (" " + (W3 + (" " + (W4 + ("  " + W5)))))))
  {
  }

  /** A word, then a run of white space and what collapsing makes of the rest. */
  lemma CollapseWordRun(w: string, b: string, rest: string)
    requires forall i :: 0 <= i < |w| ==> !IsBlank(w[i])
    requires |b| > 0 && (forall i :: 0 <= i < |b| ==> IsBlank(b[i])) && |rest| > 0 && !IsBlank(rest[0])
    ensures CollapseBlank(w + (b + rest)) == w + ("-" + CollapseBlank(rest))
  {
    CollapseBlankRun(b, rest);
    CollapseBlankAfter(w, b + rest);
  }

  /** The words hold no white space. */
  lemma WordsUnblank()
    ensures forall i :: 0 <= i < |W1| ==> !IsBlank(W1[i])
    ensures forall i :: 0 <= i < |W2| ==> !IsBlank(W2[i])
    ensures forall i :: 0 <= i < |W3| ==> !IsBlank(W3[i])
    ensures forall i :: 0 <= i < |W4| ==> !IsBlank(W4[i])
    ensures forall i :: 0 <= i < |W5| ==> !IsBlank(W5[i])
  {
  }

  lemma CollapsedWords()
    ensures Collapsed == W1 + ("-" + (W2 + ("-" + (W3 + ("-" + (W4 + ("-" + W5)))))))
  {
  }

  lemma CollapseRemoved()
    ensures CollapseBlank(Removed) == Collapsed
  {
    RemovedWords();
    CollapsedWords();
    WordsUnblank();
    CollapseBlankNone(W5);
    var r4 := W4 + ("  " + W5);
    CollapseWordRun(W4, "  ", W5);
    var r3 := W3 + (" " + r4);
    CollapseWordRun(W3, " ", r4);
    var r2 := W2 + (" " + r3);
    CollapseWordRun(W2, " ", r3);
    CollapseWordRun(W1, " ", r2);
  }

  /** The cleaned name of pkg/format/branch_test.go. */
  const Core: string := "A-dirty-branch/should-be-cleaned"

  lemma CollapsedWrapsCore()
    ensures Collapsed == ['/'] + Core + ['/']
    ensures |Core| > 0 && Core[0] == 'A' && Core[|Core| - 1] == 'd' && Core == "A-dirty-branch/should-be-cleaned"
  {
  }

  lemma LowerCore()
    ensures ToLower(Core) == "a-dirty-branch/should-be-cleaned"
  {
  }

  /** pkg/format/branch_test.go: the dirty name cleans to "A-dirty-branch/should-be-cleaned". */
  lemma SanitizePkgDirty()
    ensures SanitizePkg(PkgDirty) == "A-dirty-branch/should-be-cleaned"
  {
    RemovePkgDirty();
    CollapseRemoved();
    CollapsedWrapsCore();
    TrimWrapped(Core, '/', {'.', '/'});
  }

  /** internal/format/branch_test.go: the dirty name cleans to "a-dirty-branch/should-be-cleaned". */
  lemma SanitizeLegacyDirty()
    ensures SanitizeLegacy(LegacyDirty) == "a-dirty-branch/should-be-cleaned"
  {
    RemoveLegacyDirty();
    CollapseRemoved();
    CollapsedWrapsCore();
    TrimWrapped(Core, '/', {'/'});
    LowerCore();
  }
}

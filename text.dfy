/**
 * The string operations of Go's standard library that the modelled code relies on
 * (strings.Split, strings.SplitN, strings.Join, strings.Trim, strings.ToLower, strconv's
 * decimal conversions) and the character classes of Go's regular-expression syntax.
 * Strings are sequences of runes.
 */
module Text {
  import opened Wrappers

  // ---------------------------------------------------------------------------
  // Character classes. `\d`, `\w` and `\s` are ASCII-only in Go's regexp syntax.

  /** `\d` */
  predicate IsDigit(c: char) { '0' <= c <= '9' }

  /** `\w` */
  predicate IsWordChar(c: char) {
    'a' <= c <= 'z' || 'A' <= c <= 'Z' || IsDigit(c) || c == '_'
  }

  /** `[a-z0-9]` */
  predicate IsLowerAlnum(c: char) { 'a' <= c <= 'z' || IsDigit(c) }

  /** `\s`, which Go defines as `[\t\n\f\r ]` */
  predicate IsBlank(c: char) {
    c == '\t' || c == '\n' || c == '\U{000C}' || c == '\r' || c == ' '
  }

  /** unicode.IsSpace, the set strings.TrimSpace removes */
  predicate IsUnicodeSpace(c: char) {
    c == '\t' || c == '\n' || c == '\U{000B}' || c == '\U{000C}' || c == '\r' || c == ' '
    || c == '\U{0085}' || c == '\U{00A0}' || c == '\U{1680}'
    || ('\U{2000}' <= c <= '\U{200A}')
    || c == '\U{2028}' || c == '\U{2029}' || c == '\U{202F}' || c == '\U{205F}' || c == '\U{3000}'
  }

  predicate AllDigits(s: string) {
    forall i :: 0 <= i < |s| ==> IsDigit(s[i])
  }

  predicate IsUpperAscii(c: char) { 'A' <= c <= 'Z' }

  predicate IsLowerAscii(c: char) { 'a' <= c <= 'z' }

  // ---------------------------------------------------------------------------
  // Case mapping (ASCII letters only; see README).

  function LowerChar(c: char): (r: char)
    ensures !IsUpperAscii(r)
    ensures IsUpperAscii(c) ==> r as int == c as int + 32
    ensures !IsUpperAscii(c) ==> r == c
  {
    if IsUpperAscii(c) then (c as int + 32) as char else c
  }

  function UpperChar(c: char): (r: char)
    ensures !IsLowerAscii(r)
    ensures IsLowerAscii(c) ==> r as int == c as int - 32
    ensures !IsLowerAscii(c) ==> r == c
  {
    if IsLowerAscii(c) then (c as int - 32) as char else c
  }

  /** strings.ToLower */
  function ToLower(s: string): (r: string)
    ensures |r| == |s|
    ensures forall i :: 0 <= i < |s| ==> r[i] == LowerChar(s[i])
  {
    seq(|s|, i requires 0 <= i < |s| => LowerChar(s[i]))
  }

  /**
   * A rune `c` matches the pattern letter `w` under the `(?i)` flag: Go folds case with
   * Unicode simple folding, whose orbits for ASCII letters are the two cases, plus the long s
   * (U+017F) for `s` and the Kelvin sign (U+212A) for `k`.
   */
  predicate FoldEq(c: char, w: char) {
    c == w
    || (IsLowerAscii(w) && c == UpperChar(w))
    || (w == 's' && c == '\U{017F}')
    || (w == 'k' && c == '\U{212A}')
  }

  /** The whole string `s` matches the literal lower-case pattern `w` under `(?i)`. */
  predicate FoldMatches(s: string, w: string) {
    |s| == |w| && (|s| == 0 || (FoldEq(s[0], w[0]) && FoldMatches(s[1..], w[1..])))
  }

  /** FoldMatches compares the two strings rune by rune. */
  lemma {:induction false} FoldMatchesIff(s: string, w: string)
    ensures FoldMatches(s, w) <==> |s| == |w| && forall i :: 0 <= i < |s| ==> FoldEq(s[i], w[i])
  {
    if |s| == |w| && |s| > 0 {
      FoldMatchesIff(s[1..], w[1..]);
      assert forall i :: 1 <= i < |s| ==> s[i] == s[1..][i - 1] && w[i] == w[1..][i - 1];
    }
  }

  // ---------------------------------------------------------------------------
  // Splitting and joining.

  /** strings.Split(s, string(sep)) */
  function Split(s: string, sep: char): (r: seq<string>)
    ensures |r| >= 1
    ensures forall i :: 0 <= i < |r| ==> sep !in r[i]
  {
    if |s| == 0 then [""]
    else if s[0] == sep then [""] + Split(s[1..], sep)
    else
      var t := Split(s[1..], sep);
      [[s[0]] + t[0]] + t[1..]
  }

  /** No part of a split is longer than the string. */
  lemma {:induction false} SplitShorter(s: string, sep: char)
    ensures forall i :: 0 <= i < |Split(s, sep)| ==> |Split(s, sep)[i]| <= |s|
  {
    if |s| > 0 {
      SplitShorter(s[1..], sep);
    }
  }

  /** The first part of a split starts like the string, unless the string starts with the separator. */
  lemma SplitFirst(s: string, sep: char)
    requires |s| > 0 && s[0] != sep
    ensures |Split(s, sep)[0]| > 0 && Split(s, sep)[0][0] == s[0]
  {
  }

  /** strings.Join(parts, string(sep)) */
  function Join(parts: seq<string>, sep: char): string {
    if |parts| == 0 then ""
    else if |parts| == 1 then parts[0]
    else parts[0] + [sep] + Join(parts[1..], sep)
  }

  /** The first index of `c` in `s`. */
  function IndexOf(s: string, c: char): (r: Option<nat>)
    ensures r.None? <==> c !in s
    ensures r.Some? ==> r.value < |s| && s[r.value] == c && c !in s[..r.value]
  {
    if |s| == 0 then None
    else if s[0] == c then Some(0)
    else match IndexOf(s[1..], c)
      case None => None
      case Some(i) => assert s[1..][..i] == s[1..i + 1]; Some(i + 1)
  }

  /** strings.SplitN(s, string(sep), n) for n >= 1: the last part keeps the remaining separators. */
  function SplitN(s: string, sep: char, n: nat): (r: seq<string>)
    requires n >= 1
    ensures 1 <= |r| <= n
    decreases n
  {
    if n == 1 then [s]
    else match IndexOf(s, sep)
      case None => [s]
      case Some(i) => [s[..i]] + SplitN(s[i + 1..], sep, n - 1)
  }

  /** strings.SplitN stops at the first separator and splits the rest into one part fewer. */
  lemma SplitNAfterSep(a: string, b: string, sep: char, n: nat)
    requires n >= 2 && sep !in a
    ensures SplitN(a + [sep] + b, sep, n) == [a] + SplitN(b, sep, n - 1)
  {
    var s := a + [sep] + b;
    assert s[|a|] == sep && s[..|a|] == a && s[|a| + 1..] == b;
    assert IndexOf(s, sep) == Some(|a|);
  }

  /** A string without the separator is a single part. */
  lemma SplitNWithoutSep(s: string, sep: char, n: nat)
    requires n >= 1 && sep !in s
    ensures SplitN(s, sep, n) == [s]
  {
  }

  lemma {:induction false} SplitWithoutSep(s: string, sep: char)
    requires sep !in s
    ensures Split(s, sep) == [s]
  {
    if |s| > 0 {
      assert sep !in s[1..];
      SplitWithoutSep(s[1..], sep);
      assert [s[0]] + s[1..] == s;
    }
  }

  /** Splitting a string whose first separator follows `a` yields `a` and the split of the rest. */
  lemma {:induction false} SplitAfterSep(a: string, b: string, sep: char)
    requires sep !in a
    ensures Split(a + [sep] + b, sep) == [a] + Split(b, sep)
  {
    var s := a + [sep] + b;
    if |a| == 0 {
      assert s == [sep] + b;
      assert s[1..] == b;
    } else {
      assert s[0] == a[0];
      assert s[1..] == a[1..] + [sep] + b;
      assert sep !in a[1..];
      SplitAfterSep(a[1..], b, sep);
      assert [a[0]] + a[1..] == a;
    }
  }

  /** strings.Split and strings.Join are inverse. */
  lemma {:induction false} JoinSplit(s: string, sep: char)
    ensures Join(Split(s, sep), sep) == s
  {
    if |s| > 0 {
      JoinSplit(s[1..], sep);
      var t := Split(s[1..], sep);
      if s[0] == sep {
        assert Split(s, sep) == [""] + t;
        assert ([""] + t)[1..] == t;
        assert s == [sep] + s[1..];
      } else {
        var r := [[s[0]] + t[0]] + t[1..];
        assert Split(s, sep) == r;
        if |t| == 1 {
          assert Join(t, sep) == t[0];
          assert s == [s[0]] + s[1..];
        } else {
          assert Join(t, sep) == t[0] + [sep] + Join(t[1..], sep);
          assert r[1..] == t[1..];
          assert s == [s[0]] + s[1..];
        }
      }
    }
  }

  lemma {:induction false} JoinSnoc(parts: seq<string>, x: string, sep: char)
    requires |parts| > 0
    ensures Join(parts + [x], sep) == Join(parts, sep) + [sep] + x
  {
    if |parts| == 1 {
      assert parts + [x] == [parts[0], x];
    } else {
      assert (parts + [x])[1..] == parts[1..] + [x];
      JoinSnoc(parts[1..], x, sep);
    }
  }

  lemma {:induction false} JoinConcat(a: seq<string>, b: seq<string>, sep: char)
    requires |a| > 0 && |b| > 0
    ensures Join(a + b, sep) == Join(a, sep) + [sep] + Join(b, sep)
  {
    if |a| == 1 {
      assert (a + b)[1..] == b;
    } else {
      assert (a + b)[1..] == a[1..] + b;
      JoinConcat(a[1..], b, sep);
    }
  }

  /** Each part preceded by the separator, as a loop that appends separator and part writes them. */
  function PrefixEach(parts: seq<string>, sep: char): string {
    if parts == [] then "" else PrefixEach(parts[..|parts| - 1], sep) + ([sep] + parts[|parts| - 1])
  }

  lemma TakeDrop(s: string, k: nat)
    requires k <= |s|
    ensures s[..k] + s[k..] == s
  {
  }

  lemma AppendEmpty(s: string)
    ensures s + "" == s
  {
  }

  lemma EmptyAppend(s: seq<string>)
    ensures [] + s == s
  {
  }

  lemma AppendAssoc(a: string, b: string, c: string)
    ensures (a + b) + c == a + (b + c)
  {
  }

  lemma {:induction false} PrefixEachConcat(a: seq<string>, b: seq<string>, sep: char)
    ensures PrefixEach(a + b, sep) == PrefixEach(a, sep) + PrefixEach(b, sep)
  {
    if b == [] {
      assert a + b == a;
    } else {
      var b' := b[..|b| - 1];
      var x := [sep] + b[|b| - 1];
      assert (a + b)[..|a + b| - 1] == a + b';
      PrefixEachConcat(a, b', sep);
      calc {
        PrefixEach(a + b, sep);
        PrefixEach(a + b', sep) + x;
        (PrefixEach(a, sep) + PrefixEach(b', sep)) + x;
        { AppendAssoc(PrefixEach(a, sep), PrefixEach(b', sep), x); }
        PrefixEach(a, sep) + (PrefixEach(b', sep) + x);
      }
    }
  }

  /** Joining parts behind a first one is writing the first, then each part preceded by the separator. */
  lemma {:induction false} JoinCons(first: string, parts: seq<string>, sep: char)
    ensures Join([first] + parts, sep) == first + PrefixEach(parts, sep)
  {
    if parts == [] {
      assert [first] + parts == [first];
    } else {
      var init := parts[..|parts| - 1];
      var x := parts[|parts| - 1];
      JoinCons(first, init, sep);
      assert [first] + parts == ([first] + init) + [x];
      JoinSnoc([first] + init, x, sep);
      calc {
        Join([first] + parts, sep);
        Join([first] + init, sep) + [sep] + x;
        { AppendAssoc(Join([first] + init, sep), [sep], x); }
        (first + PrefixEach(init, sep)) + ([sep] + x);
        { AppendAssoc(first, PrefixEach(init, sep), [sep] + x); }
        first + (PrefixEach(init, sep) + ([sep] + x));
      }
    }
  }

  lemma NoSepConcat(a: seq<string>, b: seq<string>, sep: char)
    requires forall i :: 0 <= i < |a| ==> sep !in a[i]
    requires forall i :: 0 <= i < |b| ==> sep !in b[i]
    ensures forall i :: 0 <= i < |a + b| ==> sep !in (a + b)[i]
  {
    forall i | 0 <= i < |a + b| ensures sep !in (a + b)[i] {
      if i >= |a| {
        assert (a + b)[i] == b[i - |a|];
      }
    }
  }

  /** Splitting the join of separator-free parts gives the parts back. */
  lemma {:induction false} SplitJoin(parts: seq<string>, sep: char)
    requires |parts| > 0
    requires forall i :: 0 <= i < |parts| ==> sep !in parts[i]
    ensures Split(Join(parts, sep), sep) == parts
  {
    if |parts| == 1 {
      SplitWithoutSep(parts[0], sep);
    } else {
      SplitJoin(parts[1..], sep);
      SplitAfterSep(parts[0], Join(parts[1..], sep), sep);
      assert [parts[0]] + parts[1..] == parts;
    }
  }

  /** strings.ReplaceAll(s, string(a), string(b)) for single characters. */
  function ReplaceChar(s: string, a: char, b: char): (r: string)
    ensures |r| == |s|
    ensures forall i :: 0 <= i < |s| ==> r[i] == if s[i] == a then b else s[i]
  {
    seq(|s|, i requires 0 <= i < |s| => if s[i] == a then b else s[i])
  }

  /** Replacing is done character by character, so it distributes over concatenation. */
  lemma ReplaceCharConcat(x: string, y: string, a: char, b: char)
    ensures ReplaceChar(x + y, a, b) == ReplaceChar(x, a, b) + ReplaceChar(y, a, b)
  {
  }

  /** Replacing a character the string does not hold changes nothing. */
  lemma ReplaceCharAbsent(s: string, a: char, b: char)
    requires forall i :: 0 <= i < |s| ==> s[i] != a
    ensures ReplaceChar(s, a, b) == s
  {
  }

  /** Replacing back undoes a replacement into a character the string did not hold. */
  lemma ReplaceCharBack(s: string, a: char, b: char)
    requires b !in s
    ensures ReplaceChar(ReplaceChar(s, a, b), b, a) == s
  {
    assert forall i :: 0 <= i < |s| ==> s[i] != b by {
      forall i | 0 <= i < |s| ensures s[i] != b {
        assert s[i] in s;
      }
    }
  }

  // ---------------------------------------------------------------------------
  // Trimming.

  /** The number of leading characters of `s` in `cut`. */
  function LeadingIn(s: string, cut: set<char>): (k: nat)
    ensures k <= |s|
    ensures forall i :: 0 <= i < k ==> s[i] in cut
    ensures k < |s| ==> s[k] !in cut
  {
    if |s| > 0 && s[0] in cut then 1 + LeadingIn(s[1..], cut) else 0
  }

  /** The length of `s` once its trailing characters in `cut` are dropped. */
  function KeptBeforeTrailingIn(s: string, cut: set<char>): (k: nat)
    ensures k <= |s|
    ensures forall i :: k <= i < |s| ==> s[i] in cut
    ensures k > 0 ==> s[k - 1] !in cut
  {
    if |s| > 0 && s[|s| - 1] in cut then KeptBeforeTrailingIn(s[..|s| - 1], cut) else |s|
  }

  /** strings.TrimLeft(s, cutset) */
  function TrimLeft(s: string, cut: set<char>): string {
    s[LeadingIn(s, cut)..]
  }

  /** strings.TrimRight(s, cutset) */
  function TrimRight(s: string, cut: set<char>): string {
    s[..KeptBeforeTrailingIn(s, cut)]
  }

  /** strings.Trim(s, cutset) */
  function Trim(s: string, cut: set<char>): (r: string)
    ensures |r| <= |s|
    ensures |r| > 0 ==> r[0] !in cut && r[|r| - 1] !in cut
    ensures forall c :: c in r ==> c in s
  {
    TrimRight(TrimLeft(s, cut), cut)
  }

  /** A string none of whose characters is a cut character is its own trim. */
  lemma TrimUnchanged(s: string, cut: set<char>)
    requires forall c :: c in s ==> c !in cut
    ensures Trim(s, cut) == s
  {
    if |s| > 0 {
      assert s[0] in s && s[|s| - 1] in s;
    }
  }

  /** A string that starts and ends outside the cut set is its own trim. */
  lemma TrimEnds(s: string, cut: set<char>)
    requires |s| > 0 && s[0] !in cut && s[|s| - 1] !in cut
    ensures Trim(s, cut) == s
  {
    assert LeadingIn(s, cut) == 0;
    assert s[0..] == s;
    assert KeptBeforeTrailingIn(s, cut) == |s|;
  }

  /** One cut character after a string with clean ends is all that trimming removes. */
  lemma TrimDropsLast(s: string, c: char, cut: set<char>)
    requires |s| > 0 && s[0] !in cut && s[|s| - 1] !in cut && c in cut
    ensures Trim(s + [c], cut) == s
  {
    var t := s + [c];
    assert LeadingIn(t, cut) == 0;
    assert t[0..] == t && t[..|t| - 1] == s;
    assert KeptBeforeTrailingIn(s, cut) == |s|;
  }

  /** Trimming a string with clean ends out of one cut character on each side gives the string. */
  lemma TrimWrapped(s: string, c: char, cut: set<char>)
    requires |s| > 0 && s[0] !in cut && s[|s| - 1] !in cut && c in cut
    ensures Trim([c] + s + [c], cut) == s
  {
    var t := [c] + s + [c];
    assert t[1..] == s + [c];
    assert LeadingIn(t[1..], cut) == 0;
    assert LeadingIn(t, cut) == 1;
    TrimDropsLast(s, c, cut);
    assert TrimLeft(t, cut) == s + [c];
    assert TrimLeft(s + [c], cut) == s + [c] by {
      assert LeadingIn(s + [c], cut) == 0;
      assert (s + [c])[0..] == s + [c];
    }
  }

  /** The number of leading white-space characters of `s`. */
  function LeadingSpace(s: string): (k: nat)
    ensures k <= |s|
    ensures forall i :: 0 <= i < k ==> IsUnicodeSpace(s[i])
    ensures k < |s| ==> !IsUnicodeSpace(s[k])
  {
    if |s| > 0 && IsUnicodeSpace(s[0]) then 1 + LeadingSpace(s[1..]) else 0
  }

  /** The length of `s` once its trailing white space is dropped. */
  function KeptBeforeTrailingSpace(s: string): (k: nat)
    ensures k <= |s|
    ensures forall i :: k <= i < |s| ==> IsUnicodeSpace(s[i])
    ensures k > 0 ==> !IsUnicodeSpace(s[k - 1])
  {
    if |s| > 0 && IsUnicodeSpace(s[|s| - 1]) then KeptBeforeTrailingSpace(s[..|s| - 1]) else |s|
  }

  /** strings.TrimSpace: leading and trailing white space removed. */
  function TrimSpace(s: string): (r: string)
    ensures |r| <= |s|
    ensures |r| > 0 ==> !IsUnicodeSpace(r[0]) && !IsUnicodeSpace(r[|r| - 1])
  {
    var l := s[LeadingSpace(s)..];
    l[..KeptBeforeTrailingSpace(l)]
  }

  /** A string that neither starts nor ends with white space is its own TrimSpace. */
  lemma TrimSpaceUnchanged(s: string)
    requires |s| > 0 ==> !IsUnicodeSpace(s[0]) && !IsUnicodeSpace(s[|s| - 1])
    ensures TrimSpace(s) == s
  {
    if |s| > 0 {
      assert LeadingSpace(s) == 0;
      assert s[0..] == s;
      assert KeptBeforeTrailingSpace(s) == |s|;
    }
  }

  /** strings.TrimPrefix(s, prefix) */
  function TrimPrefix(s: string, prefix: string): (r: string)
    ensures prefix <= s ==> prefix + r == s
    ensures !(prefix <= s) ==> r == s
  {
    if prefix <= s then s[|prefix|..] else s
  }

  /** strings.HasSuffix */
  predicate HasSuffix(s: string, suffix: string) {
    |suffix| <= |s| && s[|s| - |suffix|..] == suffix
  }

  // ---------------------------------------------------------------------------
  // Decimal numbers.

  /** The bounds of Go's int64 (and of int, which is 64 bits wide here). */
  const MaxInt64: int := 0x7FFF_FFFF_FFFF_FFFF
  const MinInt64: int := -0x8000_0000_0000_0000

  /** The value of a run of decimal digits, as strconv reads it. */
  function DigitsValue(s: string): nat
    requires AllDigits(s)
  {
    if |s| == 0 then 0
    else DigitsValue(s[..|s| - 1]) * 10 + (s[|s| - 1] as int - '0' as int)
  }

  function DigitChar(d: nat): (c: char)
    requires d < 10
    ensures IsDigit(c) && c as int - '0' as int == d
  {
    ('0' as int + d) as char
  }

  /** The decimal representation of `n`, as fmt prints an unsigned integer. */
  function NatToString(n: nat): (r: string)
    ensures |r| > 0 && AllDigits(r)
  {
    if n < 10 then [DigitChar(n)] else NatToString(n / 10) + [DigitChar(n % 10)]
  }

  /** Reading back a printed number gives the number. */
  lemma {:induction false} NatToStringRoundTrip(n: nat)
    ensures DigitsValue(NatToString(n)) == n
  {
    var s := NatToString(n);
    if n >= 10 {
      NatToStringRoundTrip(n / 10);
      assert s[..|s| - 1] == NatToString(n / 10);
    } else {
      assert s[..0] == [];
    }
  }
}

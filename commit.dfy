/**
 * The Conventional Commits codec and bump classifier of pkg/format/commit.go: the commit
 * type grammar, the message formatter and parser, the validity gate, the field-wise overlay
 * and the classification of a commit into the version bump it calls for.
 */
module Commit {
  import opened Wrappers
  import opened Text

  // ---------------------------------------------------------------------------
  // Commit types.

  datatype CommitType =
    | NilCommit
    | BuildCommit
    | CiCommit
    | ChoreCommit
    | DocCommit
    | FeatureCommit
    | FixCommit
    | PerfCommit
    | RefactorCommit
    | StyleCommit
    | TestCommit

  /** CommitType.String: the canonical name, empty for NilCommit. */
  function TypeString(t: CommitType): string {
    match t
    case NilCommit => ""
    case BuildCommit => "build"
    case CiCommit => "ci"
    case ChoreCommit => "chore"
    case DocCommit => "docs"
    case FeatureCommit => "feat"
    case FixCommit => "fix"
    case PerfCommit => "perf"
    case RefactorCommit => "refactor"
    case StyleCommit => "style"
    case TestCommit => "test"
  }

  /** The names of every type but NilCommit, in declaration order. */
  function AllCommitType(): (r: seq<string>)
    ensures |r| == 10
    ensures forall t :: TypeString(t) in r <==> t != NilCommit
  {
    [TypeString(BuildCommit), TypeString(CiCommit), TypeString(ChoreCommit),
     TypeString(DocCommit), TypeString(FeatureCommit), TypeString(FixCommit),
     TypeString(PerfCommit), TypeString(RefactorCommit), TypeString(StyleCommit),
     TypeString(TestCommit)]
  }

  // The type patterns. Each is anchored at both ends and case-insensitive, so each accepts a
  // finite set of words, spelled out here.

  /** `(?i)^b(?:uilds?)?$` */
  predicate BuildCommitRe(s: string) {
    FoldMatches(s, "b") || FoldMatches(s, "build") || FoldMatches(s, "builds")
  }

  /** `(?i)^ci$` */
  predicate CiCommitRe(s: string) { FoldMatches(s, "ci") }

  /** `(?i)^ch(?:ores?)?$` */
  predicate ChoreCommitRe(s: string) {
    FoldMatches(s, "ch") || FoldMatches(s, "chore") || FoldMatches(s, "chores")
  }

  /** `(?i)^d(?:ocs?)?$` */
  predicate DocCommitRe(s: string) {
    FoldMatches(s, "d") || FoldMatches(s, "doc") || FoldMatches(s, "docs")
  }

  /** `(?i)^fe(?:at(?:ure)?s?)?$` */
  predicate FeatureCommitRe(s: string) {
    FoldMatches(s, "fe") || FoldMatches(s, "feat") || FoldMatches(s, "feats")
    || FoldMatches(s, "feature") || FoldMatches(s, "features")
  }

  /** `(?i)^fi(?:x(?:es)?)?$` */
  predicate FixCommitRe(s: string) {
    FoldMatches(s, "fi") || FoldMatches(s, "fix") || FoldMatches(s, "fixes")
  }

  /**
   * `(?i)^p(?:erf(:?ormance)?s?)?$`. The inner group is `(:?ormance)`, an optional colon
   * followed by "ormance", so "perf:ormance" is accepted as well.
   */
  predicate PerfCommitRe(s: string) {
    FoldMatches(s, "p") || FoldMatches(s, "perf") || FoldMatches(s, "perfs")
    || FoldMatches(s, "performance") || FoldMatches(s, "performances")
    || FoldMatches(s, "perf:ormance") || FoldMatches(s, "perf:ormances")
  }

  /** `(?i)^r(?:efactors?)?$` */
  predicate RefactorCommitRe(s: string) {
    FoldMatches(s, "r") || FoldMatches(s, "refactor") || FoldMatches(s, "refactors")
  }

  /** `(?i)^s(?:tyles?)?$` */
  predicate StyleCommitRe(s: string) {
    FoldMatches(s, "s") || FoldMatches(s, "style") || FoldMatches(s, "styles")
  }

  /** `(?i)^t(?:ests?)?$` */
  predicate TestCommitRe(s: string) {
    FoldMatches(s, "t") || FoldMatches(s, "test") || FoldMatches(s, "tests")
  }

  /** The pattern of type `t`; NilCommit has none. */
  predicate TypeRe(t: CommitType, s: string) {
    match t
    case NilCommit => false
    case BuildCommit => BuildCommitRe(s)
    case CiCommit => CiCommitRe(s)
    case ChoreCommit => ChoreCommitRe(s)
    case DocCommit => DocCommitRe(s)
    case FeatureCommit => FeatureCommitRe(s)
    case FixCommit => FixCommitRe(s)
    case PerfCommit => PerfCommitRe(s)
    case RefactorCommit => RefactorCommitRe(s)
    case StyleCommit => StyleCommitRe(s)
    case TestCommit => TestCommitRe(s)
  }

  /** FindCommitType: the first pattern, in the switch's order, that accepts `s`. */
  function FindCommitType(s: string): CommitType {
    if BuildCommitRe(s) then BuildCommit
    else if CiCommitRe(s) then CiCommit
    else if ChoreCommitRe(s) then ChoreCommit
    else if DocCommitRe(s) then DocCommit
    else if FeatureCommitRe(s) then FeatureCommit
    else if FixCommitRe(s) then FixCommit
    else if PerfCommitRe(s) then PerfCommit
    else if RefactorCommitRe(s) then RefactorCommit
    else if StyleCommitRe(s) then StyleCommit
    else if TestCommitRe(s) then TestCommit
    else NilCommit
  }

  /** The first rune of a word accepted by a type pattern, which already tells the types apart. */
  lemma TypeReFirstRune(t: CommitType, s: string)
    requires TypeRe(t, s)
    ensures |s| > 0
    ensures t == BuildCommit ==> FoldEq(s[0], 'b')
    ensures (t == CiCommit || t == ChoreCommit) ==> FoldEq(s[0], 'c') && |s| >= 2
    ensures t == CiCommit ==> FoldEq(s[1], 'i')
    ensures t == ChoreCommit ==> FoldEq(s[1], 'h')
    ensures t == DocCommit ==> FoldEq(s[0], 'd')
    ensures (t == FeatureCommit || t == FixCommit) ==> FoldEq(s[0], 'f') && |s| >= 2
    ensures t == FeatureCommit ==> FoldEq(s[1], 'e')
    ensures t == FixCommit ==> FoldEq(s[1], 'i')
    ensures t == PerfCommit ==> FoldEq(s[0], 'p')
    ensures t == RefactorCommit ==> FoldEq(s[0], 'r')
    ensures t == StyleCommit ==> FoldEq(s[0], 's')
    ensures t == TestCommit ==> FoldEq(s[0], 't')
  {
    match t
    case CiCommit => FoldMatchesIff(s, "ci");
    case ChoreCommit =>
      FoldMatchesIff(s, "ch"); FoldMatchesIff(s, "chore"); FoldMatchesIff(s, "chores");
    case FeatureCommit =>
      FoldMatchesIff(s, "fe"); FoldMatchesIff(s, "feat"); FoldMatchesIff(s, "feats");
      FoldMatchesIff(s, "feature"); FoldMatchesIff(s, "features");
    case FixCommit =>
      FoldMatchesIff(s, "fi"); FoldMatchesIff(s, "fix"); FoldMatchesIff(s, "fixes");
    case _ =>
  }

  /** No word is accepted by two type patterns. */
  lemma TypeReExclusive(s: string, t1: CommitType, t2: CommitType)
    requires TypeRe(t1, s) && TypeRe(t2, s)
    ensures t1 == t2
  {
    TypeReFirstRune(t1, s);
    TypeReFirstRune(t2, s);
  }

  /** FindCommitType yields a type exactly when that type's pattern accepts the token. */
  lemma FindCommitTypeIff(s: string, t: CommitType)
    requires t != NilCommit
    ensures FindCommitType(s) == t <==> TypeRe(t, s)
  {
    var f := FindCommitType(s);
    if TypeRe(t, s) && f != t {
      if f != NilCommit {
        TypeReExclusive(s, f, t);
      }
    }
  }

  /** FindCommitType yields NilCommit exactly when no pattern accepts the token. */
  lemma FindCommitTypeNil(s: string)
    ensures FindCommitType(s) == NilCommit <==> forall t :: !TypeRe(t, s)
  {
    if FindCommitType(s) == NilCommit {
      forall t ensures !TypeRe(t, s) {
        if t != NilCommit {
          FindCommitTypeIff(s, t);
        }
      }
    } else {
      FindCommitTypeIff(s, FindCommitType(s));
    }
  }

  /** Every canonical name is recognised as its own type. */
  lemma FindCommitTypeOfString(t: CommitType)
    requires t != NilCommit
    ensures FindCommitType(TypeString(t)) == t
  {
    FindCommitTypeIff(TypeString(t), t);
  }

  /** Cases of the type table in pkg/format/commit_test.go: build, chore and docs. */
  lemma FindCommitTypeBuildChoreDoc()
    ensures FindCommitType("bUild") == BuildCommit
    ensures FindCommitType("chOreS") == ChoreCommit
    ensures FindCommitType("Doc") == DocCommit
  {
    assert FindCommitType("bUild") == BuildCommit by {
      FoldMatchesIff("bUild", "build");
      FindCommitTypeIff("bUild", BuildCommit);
    }
    assert FindCommitType("chOreS") == ChoreCommit by {
      FoldMatchesIff("chOreS", "chores");
      FindCommitTypeIff("chOreS", ChoreCommit);
    }
    assert FindCommitType("Doc") == DocCommit by {
      FoldMatchesIff("Doc", "doc");
      FindCommitTypeIff("Doc", DocCommit);
    }
  }

  /** Cases of the type table in pkg/format/commit_test.go: feat, fix and perf. */
  lemma FindCommitTypeFeatFixPerf()
    ensures FindCommitType("features") == FeatureCommit
    ensures FindCommitType("fixEs") == FixCommit
    ensures FindCommitType("pErFs") == PerfCommit
  {
    assert FindCommitType("features") == FeatureCommit by {
      FoldMatchesIff("features", "features");
      FindCommitTypeIff("features", FeatureCommit);
    }
    assert FindCommitType("fixEs") == FixCommit by {
      FoldMatchesIff("fixEs", "fixes");
      FindCommitTypeIff("fixEs", FixCommit);
    }
    assert FindCommitType("pErFs") == PerfCommit by {
      FoldMatchesIff("pErFs", "perfs");
      FindCommitTypeIff("pErFs", PerfCommit);
    }
  }

  /** The perf pattern's optional colon, and the style case of the type table. */
  lemma FindCommitTypePerfColonStyle()
    ensures FindCommitType("perf:ormance") == PerfCommit
    ensures FindCommitType("stYles") == StyleCommit
  {
    assert FindCommitType("perf:ormance") == PerfCommit by {
      FoldMatchesIff("perf:ormance", "perf:ormance");
      FindCommitTypeIff("perf:ormance", PerfCommit);
    }
    assert FindCommitType("stYles") == StyleCommit by {
      FoldMatchesIff("stYles", "styles");
      FindCommitTypeIff("stYles", StyleCommit);
    }
  }

  /** The rejected case of the type table in pkg/format/commit_test.go. */
  lemma FindCommitTypeRejects()
    ensures FindCommitType("fail") == NilCommit
  {
    var f := FindCommitType("fail");
    if f != NilCommit {
      FindCommitTypeIff("fail", f);
      TypeReFirstRune(f, "fail");
      assert false;
    }
  }

  // ---------------------------------------------------------------------------
  // Commit messages.

  /** The fields of a CommitMessageOption. */
  datatype CommitMsg = CommitMsg(
    ctype: CommitType,
    scope: string,
    description: string,
    body: string,
    footers: seq<string>,
    breakingChanges: bool)

  /** The parts of a header line `type(scope)!: subject`; an empty scope means "no scope". */
  datatype Header = Header(typeToken: string, scope: string, breaking: bool, subject: string)

  function ScopePart(scope: string): string { if scope != "" then "(" + scope + ")" else "" }

  function BangPart(b: bool): string { if b then "!" else "" }

  /** What follows the type token in a header line. */
  function HeaderSuffix(scope: string, breaking: bool, subject: string): string {
    ScopePart(scope) + TailPart(breaking, subject)
  }

  /** What follows the scope in a header line. */
  function TailPart(breaking: bool, subject: string): string {
    BangPart(breaking) + (": " + subject)
  }

  /** The header line written for `h`: token, scope, bang and ": " subject, appended in turn. */
  function RenderHeader(h: Header): string {
    h.typeToken + ScopePart(h.scope) + BangPart(h.breaking) + (": " + h.subject)
  }

  /** A header line is one line exactly when its scope and subject are. */
  lemma RenderHeaderLines(h: Header)
    ensures '\n' in RenderHeader(h) <==> '\n' in h.typeToken || '\n' in h.scope || '\n' in h.subject
  {
  }

  /** A header line is its type token followed by the rest of the header. */
  lemma RenderHeaderSplit(h: Header)
    ensures RenderHeader(h) == h.typeToken + HeaderSuffix(h.scope, h.breaking, h.subject)
  {
    var x := ": " + h.subject;
    AppendAssoc(h.typeToken + ScopePart(h.scope), BangPart(h.breaking), x);
    AppendAssoc(h.typeToken, ScopePart(h.scope), BangPart(h.breaking) + x);
  }

  /** The headers that the header pattern `^(\w+)(?:\(([^)]+)\))?(!)?: (.+)$` accepts. */
  predicate HeaderWellFormed(h: Header) {
    && |h.typeToken| > 0
    && (forall i :: 0 <= i < |h.typeToken| ==> IsWordChar(h.typeToken[i]))
    && ')' !in h.scope && '\n' !in h.scope
    && |h.subject| > 0 && '\n' !in h.subject
  }

  /** The length of the longest prefix of `s` made of `\w` runes. */
  function WordPrefixLen(s: string): (k: nat)
    ensures k <= |s|
    ensures forall i :: 0 <= i < k ==> IsWordChar(s[i])
    ensures k < |s| ==> !IsWordChar(s[k])
  {
    if |s| > 0 && IsWordChar(s[0]) then 1 + WordPrefixLen(s[1..]) else 0
  }

  lemma {:induction false} WordPrefixLenOf(a: string, b: string)
    requires forall i :: 0 <= i < |a| ==> IsWordChar(a[i])
    requires |b| > 0 ==> !IsWordChar(b[0])
    ensures WordPrefixLen(a + b) == |a|
  {
    if |a| == 0 {
      assert a + b == b;
    } else {
      assert (a + b)[0] == a[0];
      assert (a + b)[1..] == a[1..] + b;
      WordPrefixLenOf(a[1..], b);
    }
  }

  /**
   * The header pattern applied to the first line of a message. The type is the longest run
   * of `\w` runes (the next rune must be `(`, `!` or `:`); a scope runs to the first `)` and
   * must not be empty; an optional `!` follows; then ": " and a non-empty subject.
   */
  function ParseHeader(line: string): (r: Option<Header>)
    requires '\n' !in line
  {
    var k := WordPrefixLen(line);
    if k == 0 then None else HeaderRest(line[..k], line[k..])
  }

  /** The length of the longest prefix of `s` without `)`, the extent of `[^)]+`. */
  function ScopeLen(s: string): (k: nat)
    ensures k <= |s| && ')' !in s[..k]
    ensures k < |s| ==> s[k] == ')'
  {
    if |s| > 0 && s[0] != ')' then
      var k := 1 + ScopeLen(s[1..]);
      assert s[..k] == [s[0]] + s[1..][..k - 1];
      k
    else 0
  }

  /** The header pattern after the type token: an optional scope, then the tail. */
  function HeaderRest(token: string, rest: string): Option<Header> {
    if |rest| > 0 && rest[0] == '(' then
      var j := ScopeLen(rest[1..]);
      if j == 0 || j == |rest| - 1 then None else HeaderTail(token, rest[1..j + 1], rest[j + 2..])
    else HeaderTail(token, "", rest)
  }

  /** The header pattern after the scope: an optional `!`, then ": " and the subject. */
  function HeaderTail(token: string, scope: string, rest: string): Option<Header> {
    if |rest| > 0 && rest[0] == '!' then HeaderSubject(token, scope, true, rest[1..])
    else HeaderSubject(token, scope, false, rest)
  }

  function HeaderSubject(token: string, scope: string, bc: bool, rest: string): Option<Header> {
    if |rest| > 2 && rest[..2] == ": " then Some(Header(token, scope, bc, rest[2..])) else None
  }

  lemma HeaderTailOf(token: string, scope: string, bc: bool, subject: string)
    requires |subject| > 0
    ensures HeaderTail(token, scope, TailPart(bc, subject)) == Some(Header(token, scope, bc, subject))
  {
    var rest := TailPart(bc, subject);
    var sub := ": " + subject;
    if bc {
      assert rest[1..] == sub;
    } else {
      assert rest == sub;
    }
    assert sub[..2] == ": " && sub[2..] == subject;
  }

  lemma HeaderTailSound(token: string, scope: string, rest: string)
    requires HeaderTail(token, scope, rest).Some?
    ensures var h := HeaderTail(token, scope, rest).value;
      h.typeToken == token && h.scope == scope && |h.subject| > 0
      && rest == TailPart(h.breaking, h.subject)
  {
    var h := HeaderTail(token, scope, rest).value;
    if |rest| > 0 && rest[0] == '!' {
      assert rest[1..] == ": " + h.subject;
      assert rest == "!" + rest[1..];
    } else {
      assert rest == rest[..2] + rest[2..];
    }
  }

  lemma ScopeLenOf(scope: string, tail: string)
    requires ')' !in scope
    ensures ScopeLen(scope + ")" + tail) == |scope|
  {
    var s := scope + ")" + tail;
    assert s[..|scope|] == scope;
    assert s[|scope|] == ')';
  }

  lemma HeaderRestOf(token: string, scope: string, tail: string)
    requires ')' !in scope
    requires |tail| > 0 ==> tail[0] != '('
    ensures HeaderRest(token, ScopePart(scope) + tail) == HeaderTail(token, scope, tail)
  {
    if scope != "" {
      var rest := ScopePart(scope) + tail;
      assert rest[1..] == scope + ")" + tail;
      ScopeLenOf(scope, tail);
      assert rest[1..|scope| + 1] == scope;
      assert rest[|scope| + 2..] == tail;
    } else {
      assert ScopePart(scope) + tail == tail;
    }
  }

  lemma ScopeSplit(rest: string, j: nat)
    requires 0 < j && j + 2 <= |rest| && rest[0] == '(' && rest[j + 1] == ')'
    ensures rest[1..j + 1] == rest[1..][..j]
    ensures rest == ScopePart(rest[1..j + 1]) + rest[j + 2..]
  {
    assert rest[..j + 2] == ScopePart(rest[1..j + 1]);
    TakeDrop(rest, j + 2);
  }

  lemma HeaderRestSound(token: string, rest: string)
    requires HeaderRest(token, rest).Some?
    ensures var h := HeaderRest(token, rest).value;
      h.typeToken == token && ')' !in h.scope && |h.subject| > 0
      && rest == HeaderSuffix(h.scope, h.breaking, h.subject)
  {
    if |rest| > 0 && rest[0] == '(' {
      var j := ScopeLen(rest[1..]);
      HeaderTailSound(token, rest[1..j + 1], rest[j + 2..]);
      ScopeSplit(rest, j);
    } else {
      HeaderTailSound(token, "", rest);
    }
  }

  lemma ParseHeaderSplit(token: string, rest: string)
    requires |token| > 0 && forall i :: 0 <= i < |token| ==> IsWordChar(token[i])
    requires |rest| > 0 && !IsWordChar(rest[0]) && '\n' !in token + rest
    ensures ParseHeader(token + rest) == HeaderRest(token, rest)
  {
    var line := token + rest;
    WordPrefixLenOf(token, rest);
    assert line[..|token|] == token;
    assert line[|token|..] == rest;
  }

  /** The header pattern accepts the rendering of every well-formed header, with the same groups. */
  lemma ParseHeaderRender(h: Header)
    requires HeaderWellFormed(h)
    ensures '\n' !in RenderHeader(h)
    ensures ParseHeader(RenderHeader(h)) == Some(h)
  {
    var tail := TailPart(h.breaking, h.subject);
    var rest := HeaderSuffix(h.scope, h.breaking, h.subject);
    RenderHeaderSplit(h);
    assert tail[0] == '!' || tail[0] == ':';
    ParseHeaderSplit(h.typeToken, rest);
    HeaderRestOf(h.typeToken, h.scope, tail);
    HeaderTailOf(h.typeToken, h.scope, h.breaking, h.subject);
  }

  /** Whatever the header pattern accepts is the rendering of a well-formed header. */
  lemma ParseHeaderSound(line: string)
    requires '\n' !in line
    requires ParseHeader(line).Some?
    ensures HeaderWellFormed(ParseHeader(line).value)
    ensures RenderHeader(ParseHeader(line).value) == line
  {
    var k := WordPrefixLen(line);
    var token := line[..k];
    var rest := line[k..];
    assert ParseHeader(line) == HeaderRest(token, rest);
    HeaderRestSound(token, rest);
    var h := HeaderRest(token, rest).value;
    TakeDrop(line, k);
    RenderHeaderSplit(h);
    RenderHeaderLines(h);
  }

  /** `^\w+(?: #|: )`: a footer line is a word followed by " #" or ": ". */
  predicate IsFooterLine(l: string) {
    var k := WordPrefixLen(l);
    k > 0 && |l| >= k + 2 && (l[k..k + 2] == " #" || l[k..k + 2] == ": ")
  }

  /** The footer lines and the body text that one line contributes. */
  function FooterPart(l: string): seq<string> { if IsFooterLine(l) then [l] else [] }

  function BodyPart(l: string): string { if IsFooterLine(l) then "" else l }

  /** The footer lines among `ls`, in order. */
  function FootersOf(ls: seq<string>): seq<string> {
    if ls == [] then []
    else
      var last := ls[|ls| - 1];
      FootersOf(ls[..|ls| - 1]) + FooterPart(last)
  }

  /** The other lines among `ls`, concatenated without a separator. */
  function BodyOf(ls: seq<string>): string {
    if ls == [] then ""
    else
      var last := ls[|ls| - 1];
      BodyOf(ls[..|ls| - 1]) + BodyPart(last)
  }

  /** The footers and body of one more line. */
  lemma LinesStep(ls: seq<string>, i: nat)
    requires i < |ls|
    ensures FootersOf(ls[..i + 1]) == FootersOf(ls[..i]) + FooterPart(ls[i])
    ensures BodyOf(ls[..i + 1]) == BodyOf(ls[..i]) + BodyPart(ls[i])
  {
    assert ls[..i + 1][..i] == ls[..i];
  }

  lemma {:induction false} FootersOfConcat(a: seq<string>, b: seq<string>)
    ensures FootersOf(a + b) == FootersOf(a) + FootersOf(b)
  {
    if b == [] {
      assert a + b == a;
    } else {
      var b' := b[..|b| - 1];
      var x := FooterPart(b[|b| - 1]);
      assert (a + b)[..|a + b| - 1] == a + b';
      FootersOfConcat(a, b');
      calc {
        FootersOf(a + b);
        FootersOf(a + b') + x;
        (FootersOf(a) + FootersOf(b')) + x;
        FootersOf(a) + (FootersOf(b') + x);
        FootersOf(a) + FootersOf(b);
      }
    }
  }

  lemma {:induction false} BodyOfConcat(a: seq<string>, b: seq<string>)
    ensures BodyOf(a + b) == BodyOf(a) + BodyOf(b)
  {
    if b == [] {
      assert a + b == a;
    } else {
      var b' := b[..|b| - 1];
      var x := BodyPart(b[|b| - 1]);
      assert (a + b)[..|a + b| - 1] == a + b';
      BodyOfConcat(a, b');
      calc {
        BodyOf(a + b);
        BodyOf(a + b') + x;
        (BodyOf(a) + BodyOf(b')) + x;
        BodyOf(a) + (BodyOf(b') + x);
        BodyOf(a) + BodyOf(b);
      }
    }
  }

  lemma {:induction false} FootersOfFooters(fs: seq<string>)
    requires forall i :: 0 <= i < |fs| ==> IsFooterLine(fs[i])
    ensures FootersOf(fs) == fs
    ensures BodyOf(fs) == ""
  {
    if fs != [] {
      FootersOfFooters(fs[..|fs| - 1]);
      assert fs[..|fs| - 1] + [fs[|fs| - 1]] == fs;
    }
  }

  /**
   * ParseCommitMsg, as a function: None when the first line is not a conventional header;
   * otherwise the header's groups (the type token classified by FindCommitType), the footer
   * lines among the remaining ones, and the other remaining lines concatenated and trimmed
   * of newlines.
   */
  function ParseCommit(msg: string): Option<CommitMsg> {
    ParseLines(Split(msg, '\n'))
  }

  /** ParseCommit on the lines of the message. */
  function ParseLines(lines: seq<string>): Option<CommitMsg>
    requires |lines| > 0 && '\n' !in lines[0]
  {
    match ParseHeader(lines[0])
    case None => None
    case Some(h) =>
      Some(CommitMsg(
        FindCommitType(h.typeToken),
        h.scope,
        h.subject,
        Trim(BodyOf(lines[1..]), {'\n'}),
        FootersOf(lines[1..]),
        h.breaking))
  }

  /** The header line of a message: the type's name, then scope, bang and description. */
  function HeaderOf(m: CommitMsg): Header {
    Header(TypeString(m.ctype), m.scope, m.breakingChanges, m.description)
  }

  /**
   * CommitMessage's result: the header; then, for a non-empty body, a blank line and the body;
   * then, for non-empty footers, a blank line and one line per footer.
   */
  function FormatCommit(m: CommitMsg): string {
    RenderHeader(HeaderOf(m)) + BodySection(m.body) + FooterSection(m.footers)
  }

  function BodySection(body: string): string {
    if body != "" then "\n\n" + body else ""
  }

  function FooterSection(footers: seq<string>): string {
    if |footers| > 0 then "\n" + PrefixEach(footers, '\n') else ""
  }

  /** The lines of a formatted message after the header. */
  function BodyLines(m: CommitMsg): seq<string> {
    BodyLineSeq(m.body) + FooterLineSeq(m.footers)
  }

  /** The lines of the body section: a blank line and the body, when there is a body. */
  function BodyLineSeq(body: string): seq<string> {
    if body != "" then ["", body] else []
  }

  /** The lines of the footer section: a blank line and the footers, when there are footers. */
  function FooterLineSeq(footers: seq<string>): seq<string> {
    if |footers| > 0 then [""] + footers else []
  }

  /** The lines of a formatted message. */
  function FormatLines(m: CommitMsg): seq<string> {
    [RenderHeader(HeaderOf(m))] + BodyLines(m)
  }

  lemma BodySectionLines(body: string)
    ensures BodySection(body) == PrefixEach(BodyLineSeq(body), '\n')
  {
    if body != "" {
      var ls := ["", body];
      assert ls[..1] == [""] && ls[..1][..0] == [];
      assert PrefixEach(ls[..1], '\n') == "\n";
      AppendAssoc("\n", "\n", body);
    }
  }

  lemma FooterSectionLines(footers: seq<string>)
    ensures FooterSection(footers) == PrefixEach(FooterLineSeq(footers), '\n')
  {
    if |footers| > 0 {
      PrefixEachConcat([""], footers, '\n');
      assert [""][..0] == [];
    }
  }

  /** A formatted message is its lines joined by newlines, blank lines included. */
  lemma FormatIsLines(m: CommitMsg)
    ensures FormatCommit(m) == Join(FormatLines(m), '\n')
  {
    var h := RenderHeader(HeaderOf(m));
    var bl := BodyLineSeq(m.body);
    var fl := FooterLineSeq(m.footers);
    JoinCons(h, bl + fl, '\n');
    PrefixEachConcat(bl, fl, '\n');
    BodySectionLines(m.body);
    FooterSectionLines(m.footers);
    AppendAssoc(h, BodySection(m.body), FooterSection(m.footers));
  }

  /** The messages that format and parse back to themselves. */
  predicate RoundTrips(m: CommitMsg) {
    && m.ctype != NilCommit
    && m.description != "" && '\n' !in m.description
    && ')' !in m.scope && '\n' !in m.scope
    && '\n' !in m.body && !IsFooterLine(m.body)
    && (forall i :: 0 <= i < |m.footers| ==> '\n' !in m.footers[i] && IsFooterLine(m.footers[i]))
  }

  /** The lines of a message that round-trips are the lines of its text. */
  lemma SplitFormat(m: CommitMsg)
    requires RoundTrips(m)
    ensures Split(FormatCommit(m), '\n') == FormatLines(m)
  {
    FormatLinesNoSep(m);
    FormatIsLines(m);
    SplitJoin(FormatLines(m), '\n');
  }

  /** No line of a message that round-trips holds a line break. */
  lemma FormatLinesNoSep(m: CommitMsg)
    requires RoundTrips(m)
    ensures forall i :: 0 <= i < |FormatLines(m)| ==> '\n' !in FormatLines(m)[i]
  {
    var h := RenderHeader(HeaderOf(m));
    RenderHeaderLines(HeaderOf(m));
    var bl := BodyLineSeq(m.body);
    var fl := FooterLineSeq(m.footers);
    assert forall i :: 0 <= i < |bl| ==> '\n' !in bl[i];
    assert forall i :: 0 <= i < |fl| ==> '\n' !in fl[i] by {
      if |m.footers| > 0 {
        forall i | 0 <= i < |fl| ensures '\n' !in fl[i] {
          if i > 0 {
            assert fl[i] == m.footers[i - 1];
          }
        }
      }
    }
    NoSepConcat(bl, fl, '\n');
    NoSepConcat([h], bl + fl, '\n');
  }

  lemma BodyLinesOfBody(body: string)
    requires !IsFooterLine(body)
    ensures FootersOf(BodyLineSeq(body)) == [] && BodyOf(BodyLineSeq(body)) == body
  {
    if body != "" {
      var bl := ["", body];
      assert bl[..1] == [""] && bl[..1][..0] == [];
      assert !IsFooterLine("");
      assert FootersOf(bl[..1]) == [];
      assert BodyOf(bl[..1]) == "";
    }
  }

  lemma FooterLinesOf(footers: seq<string>)
    requires forall i :: 0 <= i < |footers| ==> IsFooterLine(footers[i])
    ensures FootersOf(FooterLineSeq(footers)) == footers && BodyOf(FooterLineSeq(footers)) == ""
  {
    if |footers| > 0 {
      FootersOfFooters(footers);
      FootersOfConcat([""], footers);
      BodyOfConcat([""], footers);
      assert [""][..0] == [];
      assert !IsFooterLine("");
    }
  }

  /** The lines after the header give back the body and the footers. */
  lemma BodyLinesParts(m: CommitMsg)
    requires !IsFooterLine(m.body)
    requires forall i :: 0 <= i < |m.footers| ==> IsFooterLine(m.footers[i])
    ensures FootersOf(BodyLines(m)) == m.footers
    ensures BodyOf(BodyLines(m)) == m.body
  {
    var bl := BodyLineSeq(m.body);
    var fl := FooterLineSeq(m.footers);
    assert BodyLines(m) == bl + fl;
    BodyLinesOfBody(m.body);
    FooterLinesOf(m.footers);
    FootersOfConcat(bl, fl);
    EmptyAppend(m.footers);
    BodyOfConcat(bl, fl);
    AppendEmpty(m.body);
  }

  /** Formatting then parsing gives back every message whose parts are single lines of the right shape. */
  lemma FormatParseRoundTrip(m: CommitMsg)
    requires RoundTrips(m)
    ensures ParseCommit(FormatCommit(m)) == Some(m)
  {
    SplitFormat(m);
    ParseFormatLines(m);
  }

  lemma ParseFormatLines(m: CommitMsg)
    requires RoundTrips(m)
    ensures '\n' !in FormatLines(m)[0]
    ensures ParseLines(FormatLines(m)) == Some(m)
  {
    var h := HeaderOf(m);
    var ls := FormatLines(m);
    assert ls[0] == RenderHeader(h);
    assert ls[1..] == BodyLines(m);
    ParseHeaderRender(h);
    FindCommitTypeOfString(m.ctype);
    BodyLinesParts(m);
    TrimUnchanged(m.body, {'\n'});
  }

  /** A message without a type formats to a string the parser rejects. */
  lemma FormatNilNotParsed(m: CommitMsg)
    requires m.ctype == NilCommit
    ensures ParseCommit(FormatCommit(m)) == None
  {
    var s := FormatCommit(m);
    var hl := RenderHeader(HeaderOf(m));
    RenderHeaderSplit(HeaderOf(m));
    assert hl[0] == s[0];
    assert s[0] == '(' || s[0] == '!' || s[0] == ':';
    var first := Split(s, '\n')[0];
    SplitFirst(s, '\n');
    assert first[0] == s[0];
    assert WordPrefixLen(first) == 0;
  }

  // ---------------------------------------------------------------------------
  // Validity gate and overlay.

  /** CommitMessageOption.Check: the missing type is reported before the missing description. */
  function Check(m: CommitMsg): (err: Option<string>)
    ensures err == None <==> m.ctype != NilCommit && m.description != ""
    ensures m.ctype == NilCommit ==> err == Some("A commit type is required")
    ensures m.ctype != NilCommit && m.description == "" ==> err == Some("A commit description is required")
  {
    if m.ctype == NilCommit then Some("A commit type is required")
    else if m.description == "" then Some("A commit description is required")
    else None
  }

  /** The message with every field at Go's zero value. */
  const EmptyMsg := CommitMsg(NilCommit, "", "", "", [], false)

  /**
   * mergo.Merge(dst, src, mergo.WithOverride): every field of `src` that is not Go's zero
   * value (NilCommit, "", an empty slice, false) replaces the field of `dst`.
   */
  function Merged(dst: CommitMsg, src: CommitMsg): CommitMsg {
    CommitMsg(
      if src.ctype != NilCommit then src.ctype else dst.ctype,
      if src.scope != "" then src.scope else dst.scope,
      if src.description != "" then src.description else dst.description,
      if src.body != "" then src.body else dst.body,
      if |src.footers| > 0 then src.footers else dst.footers,
      src.breakingChanges || dst.breakingChanges)
  }

  /** Overlaying the empty message changes nothing, and overlaying onto it copies. */
  lemma MergedIdentity(m: CommitMsg)
    ensures Merged(m, EmptyMsg) == m
    ensures Merged(EmptyMsg, m) == m
  {
  }

  /** Overlays compose: applying b then c is applying their overlay at once. */
  lemma MergedAssociative(a: CommitMsg, b: CommitMsg, c: CommitMsg)
    ensures Merged(Merged(a, b), c) == Merged(a, Merged(b, c))
  {
  }

  /** Overlaying twice is overlaying once. */
  lemma MergedIdempotent(a: CommitMsg, b: CommitMsg)
    ensures Merged(Merged(a, b), b) == Merged(a, b)
  {
  }

  /** An overlay never blanks a field, so a message that passes Check still passes it. */
  lemma MergedKeepsCheck(a: CommitMsg, b: CommitMsg)
    requires Check(a) == None
    ensures Check(Merged(a, b)) == None
    ensures a.breakingChanges ==> Merged(a, b).breakingChanges
  {
  }

  /** The overlay cases of pkg/format/commit_test.go. */
  lemma MergedExamples()
    ensures Merged(CommitMsg(FeatureCommit, "", "foo", "", [], false),
                   CommitMsg(FixCommit, "", "", "", [], false))
            == CommitMsg(FixCommit, "", "foo", "", [], false)
    ensures Merged(CommitMsg(FeatureCommit, "foo", "foo", "foo", ["foo", "foo"], true),
                   CommitMsg(FixCommit, "bar", "bar", "bar", ["bar", "bar"], false))
            == CommitMsg(FixCommit, "bar", "bar", "bar", ["bar", "bar"], true)
  {
  }

  /** CommitMessageOption: a commit message under construction, updated in place. */
  class CommitMessageOption {
    var ctype: CommitType
    var scope: string
    var description: string
    var body: string
    var footers: seq<string>
    var breakingChanges: bool

    function Value(): CommitMsg
      reads this
    {
      CommitMsg(ctype, scope, description, body, footers, breakingChanges)
    }

    constructor (m: CommitMsg)
      ensures Value() == m
    {
      ctype := m.ctype;
      scope := m.scope;
      description := m.description;
      body := m.body;
      footers := m.footers;
      breakingChanges := m.breakingChanges;
    }

    /** Overwrite: overlays the non-zero fields of `other` onto this option; it never fails. */
    method Overwrite(other: CommitMessageOption) returns (err: Option<string>)
      modifies this
      ensures err == None
      ensures Value() == Merged(old(Value()), old(other.Value()))
    {
      var src := other.Value();
      if src.ctype != NilCommit { ctype := src.ctype; }
      if src.scope != "" { scope := src.scope; }
      if src.description != "" { description := src.description; }
      if src.body != "" { body := src.body; }
      if |src.footers| > 0 { footers := src.footers; }
      if src.breakingChanges { breakingChanges := true; }
      err := None;
    }
  }

  /** CommitMessage: builds the message text piece by piece. */
  method CommitMessage(o: CommitMessageOption) returns (msg: string)
    ensures msg == FormatCommit(o.Value())
  {
    ghost var h := HeaderOf(o.Value());
    msg := TypeString(o.ctype);
    if o.scope != "" {
      msg := msg + ("(" + o.scope + ")");
    } else {
      AppendEmpty(msg);
    }
    if o.breakingChanges {
      msg := msg + "!";
    } else {
      AppendEmpty(msg);
    }
    msg := msg + (": " + o.description);
    assert msg == RenderHeader(h);
    if o.body != "" {
      msg := msg + ("\n\n" + o.body);
    } else {
      AppendEmpty(msg);
    }
    ghost var front := msg;
    if |o.footers| > 0 {
      msg := msg + "\n";
      var i := 0;
      while i < |o.footers|
        invariant 0 <= i <= |o.footers|
        invariant msg == front + "\n" + PrefixEach(o.footers[..i], '\n')
      {
        assert o.footers[..i + 1][..i] == o.footers[..i];
        AppendAssoc(front + "\n", PrefixEach(o.footers[..i], '\n'), "\n" + o.footers[i]);
        msg := msg + ("\n" + o.footers[i]);
        i := i + 1;
      }
      assert o.footers[..i] == o.footers;
      AppendAssoc(front, "\n", PrefixEach(o.footers, '\n'));
    } else {
      AppendEmpty(msg);
    }
  }

  /** ParseCommitMsg: null for a message that is not conventional, else a new option. */
  method ParseCommitMsg(msg: string) returns (cmo: CommitMessageOption?)
    ensures cmo == null <==> ParseCommit(msg).None?
    ensures cmo != null ==> fresh(cmo) && cmo.Value() == ParseCommit(msg).value
  {
    var lines := Split(msg, '\n');
    var header := ParseHeader(lines[0]);
    if header.None? {
      return null;
    }
    var h := header.value;
    cmo := new CommitMessageOption(CommitMsg(FindCommitType(h.typeToken), h.scope, h.subject, "", [], h.breaking));
    var rest := lines[1..];
    var i := 0;
    while i < |rest|
      invariant 0 <= i <= |rest|
      invariant cmo.Value() == CommitMsg(FindCommitType(h.typeToken), h.scope, h.subject,
                                         BodyOf(rest[..i]), FootersOf(rest[..i]), h.breaking)
    {
      var l := rest[i];
      LinesStep(rest, i);
      if IsFooterLine(l) {
        cmo.footers := cmo.footers + [l];
      } else {
        cmo.body := cmo.body + l;
      }
      i := i + 1;
    }
    assert rest[..i] == rest;
    cmo.body := Trim(cmo.body, {'\n'});
  }

  // ---------------------------------------------------------------------------
  // Bumps.

  datatype Bump = BumpNone | BumpPatch | BumpMinor | BumpMajor

  /** The order BUMP_NONE < BUMP_PATCH < BUMP_MINOR < BUMP_MAJOR of the enum's values. */
  function Rank(b: Bump): nat {
    match b
    case BumpNone => 0
    case BumpPatch => 1
    case BumpMinor => 2
    case BumpMajor => 3
  }

  function MaxBump(a: Bump, b: Bump): Bump {
    if Rank(a) >= Rank(b) then a else b
  }

  /**
   * NextBump: MAJOR stays MAJOR without parsing; an unparseable message changes nothing; a
   * breaking change gives MAJOR, a feature MINOR, and a fix PATCH when nothing was found yet.
   */
  function NextBump(cmsg: string, curr: Bump): (r: Bump)
  {
    if curr == BumpMajor then curr
    else match ParseCommit(cmsg)
      case None => curr
      case Some(co) =>
        if co.breakingChanges then BumpMajor
        else if co.ctype == FeatureCommit then BumpMinor
        else if Rank(curr) < Rank(BumpPatch) && co.ctype == FixCommit then BumpPatch
        else curr
  }

  /** The bump a message calls for on its own. */
  function Severity(cmsg: string): Bump {
    NextBump(cmsg, BumpNone)
  }

  /**
   * NextBump is the larger of the current bump and the message's own severity, so the
   * "fix only from NONE" rule never loses information and aggregation is a maximum.
   */
  lemma NextBumpIsMax(cmsg: string, curr: Bump)
    ensures NextBump(cmsg, curr) == MaxBump(curr, Severity(cmsg))
  {
  }

  /** NextBump never lowers the current bump, is monotone in it, and MAJOR absorbs. */
  lemma NextBumpMonotone(cmsg: string, a: Bump, b: Bump)
    requires Rank(a) <= Rank(b)
    ensures Rank(a) <= Rank(NextBump(cmsg, a)) <= Rank(NextBump(cmsg, b))
    ensures b == BumpMajor ==> NextBump(cmsg, b) == BumpMajor
  {
    NextBumpIsMax(cmsg, a);
    NextBumpIsMax(cmsg, b);
  }

  /** The bump of a message that formats `m`. */
  lemma NextBumpOfFormatted(m: CommitMsg, curr: Bump)
    requires RoundTrips(m)
    ensures NextBump(FormatCommit(m), curr) ==
      if curr == BumpMajor || m.breakingChanges then BumpMajor
      else if m.ctype == FeatureCommit then BumpMinor
      else if m.ctype == FixCommit then MaxBump(curr, BumpPatch)
      else curr
  {
    FormatParseRoundTrip(m);
  }

  /** A message whose first line is all `\w` runes is not conventional. */
  lemma NotConventional(cmsg: string)
    requires |cmsg| > 0 && forall i :: 0 <= i < |cmsg| ==> IsWordChar(cmsg[i])
    ensures ParseCommit(cmsg) == None
  {
    SplitWithoutSep(cmsg, '\n');
    assert WordPrefixLen(cmsg) == |cmsg|;
  }

  /** The cases of TestNextBump in pkg/format/commit_test.go: a feature. */
  lemma NextBumpFeature(curr: Bump)
    ensures NextBump("feat: a feature", curr) == (if curr == BumpMajor then BumpMajor else BumpMinor)
  {
    var feat := CommitMsg(FeatureCommit, "", "a feature", "", [], false);
    assert FormatCommit(feat) == "feat: a feature";
    NextBumpOfFormatted(feat, curr);
  }

  /** The cases of TestNextBump: a fix. */
  lemma NextBumpFix(curr: Bump)
    ensures NextBump("fix: a fix", curr) == MaxBump(curr, BumpPatch)
  {
    var fix := CommitMsg(FixCommit, "", "a fix", "", [], false);
    assert FormatCommit(fix) == "fix: a fix";
    NextBumpOfFormatted(fix, curr);
  }

  /** The cases of TestNextBump: a breaking change. */
  lemma NextBumpBreaking(curr: Bump)
    ensures NextBump("chore!: breaking", curr) == BumpMajor
  {
    var chore := CommitMsg(ChoreCommit, "", "breaking", "", [], true);
    assert FormatCommit(chore) == "chore!: breaking";
    NextBumpOfFormatted(chore, curr);
  }

  /** The cases of TestNextBump: a message that is not a conventional commit. */
  lemma NextBumpNotConventional(curr: Bump)
    ensures NextBump("baadbeef", curr) == curr
  {
    NotConventional("baadbeef");
  }

  /** The cases of TestCommitMessage in pkg/format/commit_test.go: a plain subject. */
  lemma FormatCommitSimple()
    ensures FormatCommit(CommitMsg(FeatureCommit, "", "commit description", "", [], false))
            == "feat: commit description"
  {
    var m := CommitMsg(FeatureCommit, "", "commit description", "", [], false);
    assert HeaderOf(m) == Header("feat", "", false, "commit description");
  }

  /** The cases of TestCommitMessage: a scope, and a breaking change. */
  lemma FormatCommitScopeBreaking()
    ensures FormatCommit(CommitMsg(PerfCommit, "scope", "message", "", [], false)) == "perf(scope): message"
    ensures FormatCommit(CommitMsg(RefactorCommit, "", "message", "", [], true)) == "refactor!: message"
  {
  }

  /** The cases of TestCommitMessage: every part, line by line. */
  lemma FormatCommitFull()
    ensures FormatCommit(CommitMsg(FeatureCommit, "scope", "message", "The message body",
                                   ["First foot", "Second foot"], true))
            == Join(["feat(scope)!: message", "", "The message body", "", "First foot", "Second foot"], '\n')
  {
    var m := CommitMsg(FeatureCommit, "scope", "message", "The message body", ["First foot", "Second foot"], true);
    FormatIsLines(m);
    assert RenderHeader(HeaderOf(m)) == "feat(scope)!: message";
    assert FormatLines(m) == ["feat(scope)!: message", "", "The message body", "", "First foot", "Second foot"];
  }
}

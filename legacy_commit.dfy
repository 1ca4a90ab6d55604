/**
 * The older commit formatter of internal/format/commit.go: its own commit type enum (no
 * chore type, NilCommit in sixth place) and a formatter that separates body and footers by a
 * single line break.
 */
module LegacyCommit {
  import opened Text
  import Commit

  datatype CommitType =
    | BuildCommit
    | CiCommit
    | DocCommit
    | FeatureCommit
    | FixCommit
    | NilCommit
    | PerfCommit
    | RefactorCommit
    | StyleCommit
    | TestCommit

  /** The iota value of each constant. */
  function Ordinal(t: CommitType): nat {
    match t
    case BuildCommit => 0
    case CiCommit => 1
    case DocCommit => 2
    case FeatureCommit => 3
    case FixCommit => 4
    case NilCommit => 5
    case PerfCommit => 6
    case RefactorCommit => 7
    case StyleCommit => 8
    case TestCommit => 9
  }

  /** The table CommitType.String indexes by the constant's value. */
  const TypeNames: seq<string> := ["build", "ci", "docs", "feat", "fix", "", "perf", "refactor", "style", "test"]

  /** CommitType.String */
  function TypeString(t: CommitType): string {
    TypeNames[Ordinal(t)]
  }

  /**
   * The name is empty exactly for NilCommit, the sixth constant; distinct types have distinct
   * names, and neither "chore" nor any other name outside the table occurs.
   */
  lemma TypeStringTable(t: CommitType, u: CommitType)
    ensures TypeString(t) == "" <==> t == NilCommit
    ensures Ordinal(NilCommit) == 5
    ensures TypeString(t) == TypeString(u) ==> t == u
    ensures TypeString(t) != "chore"
  {
    assert TypeString(t) == "" <==> t == NilCommit by {
      match t
      case NilCommit =>
      case BuildCommit =>
      case CiCommit =>
      case DocCommit =>
      case FeatureCommit =>
      case FixCommit =>
      case PerfCommit =>
      case RefactorCommit =>
      case StyleCommit =>
      case TestCommit =>
    }
  }

  /** The message fields the formatter reads. */
  datatype MessageOption = MessageOption(
    ctype: CommitType,
    scope: string,
    description: string,
    body: string,
    footers: seq<string>,
    breakingChanges: bool)

  /** The header line, rendered as in pkg/format. */
  function HeaderLine(o: MessageOption): string {
    Commit.RenderHeader(Commit.Header(TypeString(o.ctype), o.scope, o.breakingChanges, o.description))
  }

  /** The body, preceded by one line break, when there is a body. */
  function BodyLine(body: string): string {
    if body != "" then "\n" + body else ""
  }

  /** The text CommitMessage builds: the header, the body line and each footer on a line of its own. */
  function Format(o: MessageOption): string {
    HeaderLine(o) + BodyLine(o.body) + PrefixEach(o.footers, '\n')
  }

  /** The lines of a formatted message: header, body when there is one, then the footers. */
  function FormatLines(o: MessageOption): seq<string> {
    [HeaderLine(o)] + (if o.body != "" then [o.body] else []) + o.footers
  }

  /** CommitMessage */
  method CommitMessage(o: MessageOption) returns (msg: string)
    ensures msg == Format(o)
  {
    msg := TypeString(o.ctype);
    if o.scope != "" {
      msg := msg + ("(" + o.scope + ")");
    } else {
      AppendEmpty(msg);
    }
    if o.breakingChanges {
      msg := msg + "!";
    } else {
      AppendEmpty(msg);
    }
    msg := msg + (": " + o.description);
    assert msg == HeaderLine(o);
    if o.body != "" {
      msg := msg + ("\n" + o.body);
    } else {
      AppendEmpty(msg);
    }
    ghost var front := msg;
    var i := 0;
    while i < |o.footers|
      invariant 0 <= i <= |o.footers|
      invariant msg == front + PrefixEach(o.footers[..i], '\n')
    {
      assert o.footers[..i + 1][..i] == o.footers[..i];
      AppendAssoc(front, PrefixEach(o.footers[..i], '\n'), "\n" + o.footers[i]);
      msg := msg + ("\n" + o.footers[i]);
      i := i + 1;
    }
    assert o.footers[..i] == o.footers;
    AppendAssoc(HeaderLine(o), BodyLine(o.body), PrefixEach(o.footers, '\n'));
  }

  /** The formatted text is its lines joined by single line breaks: no blank line anywhere. */
  lemma FormatIsLines(o: MessageOption)
    ensures Format(o) == Join(FormatLines(o), '\n')
  {
    var h := HeaderLine(o);
    var b: seq<string> := if o.body != "" then [o.body] else [];
    assert FormatLines(o) == [h] + (b + o.footers);
    JoinCons(h, b + o.footers, '\n');
    PrefixEachConcat(b, o.footers, '\n');
    assert PrefixEach(b, '\n') == BodyLine(o.body) by {
      if o.body != "" {
        assert b[..0] == [];
      }
    }
    AppendAssoc(h, BodyLine(o.body), PrefixEach(o.footers, '\n'));
  }

  /** When no part holds a line break, the lines of the text are the header, the body and the footers. */
  lemma SplitFormat(o: MessageOption)
    requires '\n' !in o.scope && '\n' !in o.description && '\n' !in o.body
    requires forall i :: 0 <= i < |o.footers| ==> '\n' !in o.footers[i]
    ensures Split(Format(o), '\n') == FormatLines(o)
  {
    var h := HeaderLine(o);
    Commit.RenderHeaderLines(Commit.Header(TypeString(o.ctype), o.scope, o.breakingChanges, o.description));
    assert '\n' !in TypeString(o.ctype);
    var b: seq<string> := if o.body != "" then [o.body] else [];
    NoSepConcat([h], b, '\n');
    NoSepConcat([h] + b, o.footers, '\n');
    FormatIsLines(o);
    SplitJoin(FormatLines(o), '\n');
  }

  /**
   * The "Full stuff" case of internal/format/commit_test.go: the code puts a single line break
   * before the body and before the footers, so it gives a text two characters shorter than the
   * one the test expects, whose blank lines the code never writes.
   */
  lemma FullMessageLacksBlankLines()
    ensures Format(MessageOption(FeatureCommit, "scope", "message", "The message body",
                                 ["First foot", "Second foot"], true))
            == Join(["feat(scope)!: message", "The message body", "First foot", "Second foot"], '\n')
    ensures |Format(MessageOption(FeatureCommit, "scope", "message", "The message body",
                                  ["First foot", "Second foot"], true))|
            == |"feat(scope)!: message\n\nThe message body\n\nFirst foot\nSecond foot"| - 2
  {
    var o := MessageOption(FeatureCommit, "scope", "message", "The message body", ["First foot", "Second foot"], true);
    FormatIsLines(o);
    assert HeaderLine(o) == "feat(scope)!: message";
    assert FormatLines(o) == ["feat(scope)!: message", "The message body", "First foot", "Second foot"];
  }

  /**
   * The formatter the test of internal/format/commit.go evidently expects, and the one
   * pkg/format/commit.go has: a blank line before the body and one before the footer block.
   */
  function FormatIntended(o: MessageOption): string {
    HeaderLine(o) + Commit.BodySection(o.body) + Commit.FooterSection(o.footers)
  }

  /** The intended text is its lines joined by line breaks, with a blank line before each section. */
  lemma FormatIntendedIsLines(o: MessageOption)
    ensures FormatIntended(o)
            == Join([HeaderLine(o)] + (Commit.BodyLineSeq(o.body) + Commit.FooterLineSeq(o.footers)), '\n')
  {
    var h := HeaderLine(o);
    var bl := Commit.BodyLineSeq(o.body);
    var fl := Commit.FooterLineSeq(o.footers);
    JoinCons(h, bl + fl, '\n');
    PrefixEachConcat(bl, fl, '\n');
    Commit.BodySectionLines(o.body);
    Commit.FooterSectionLines(o.footers);
    AppendAssoc(h, Commit.BodySection(o.body), Commit.FooterSection(o.footers));
  }

  /**
   * The as-written text and the intended one share the header and differ by exactly one
   * missing line break per section present: they agree only on a message without body and footers.
   */
  lemma FormatMissesSeparators(o: MessageOption)
    ensures |FormatIntended(o)|
            == |Format(o)| + (if o.body != "" then 1 else 0) + (if |o.footers| > 0 then 1 else 0)
    ensures Format(o) == FormatIntended(o) <==> o.body == "" && o.footers == []
  {
  }

  /** A message with a body and two footers: the body and the footer block each after a blank line. */
  lemma FormatIntendedTwoFooters(o: MessageOption)
    requires o.body != "" && |o.footers| == 2
    ensures FormatIntended(o)
            == HeaderLine(o) + ("\n\n" + (o.body + ("\n\n" + (o.footers[0] + ("\n" + o.footers[1])))))
  {
    var fs := o.footers;
    assert fs[..1] == [fs[0]] && fs[..1][..0] == [];
    assert PrefixEach(fs[..1], '\n') == "\n" + fs[0];
    assert PrefixEach(fs, '\n') == ("\n" + fs[0]) + ("\n" + fs[1]);
    assert PrefixEach(fs, '\n') == "\n" + (fs[0] + ("\n" + fs[1]));
    var tail := "\n\n" + (fs[0] + ("\n" + fs[1]));
    assert Commit.FooterSection(fs) == tail;
    assert Commit.BodySection(o.body) + tail == "\n\n" + (o.body + tail);
    AppendAssoc(HeaderLine(o), Commit.BodySection(o.body), tail);
  }

  /**
   * The "Full stuff" case of internal/format/commit_test.go holds for the intended formatter:
   * the test's expected text, written piece by piece.
   */
  lemma FullMessageIntended()
    ensures FormatIntended(MessageOption(FeatureCommit, "scope", "message", "The message body",
                                         ["First foot", "Second foot"], true))
            == "feat(scope)!: message" + ("\n\n" + ("The message body" + ("\n\n" + ("First foot" + ("\n" + "Second foot")))))
  {
    var o := MessageOption(FeatureCommit, "scope", "message", "The message body", ["First foot", "Second foot"], true);
    assert HeaderLine(o) == "feat(scope)!: message";
    FormatIntendedTwoFooters(o);
  }

  /** The other cases of internal/format/commit_test.go, which the code meets: a plain subject. */
  lemma SubjectExample()
    ensures Format(MessageOption(FeatureCommit, "", "commit description", "", [], false)) == "feat: commit description"
  {
    var o := MessageOption(FeatureCommit, "", "commit description", "", [], false);
    assert HeaderLine(o) == "feat" + ": commit description";
  }

  /** A scope. */
  lemma ScopeExample()
    ensures Format(MessageOption(PerfCommit, "scope", "message", "", [], false)) == "perf(scope): message"
  {
    var o := MessageOption(PerfCommit, "scope", "message", "", [], false);
    assert HeaderLine(o) == "perf" + "(scope)" + ": message";
  }

  /** A breaking change. */
  lemma BreakingExample()
    ensures Format(MessageOption(RefactorCommit, "", "message", "", [], true)) == "refactor!: message"
  {
    var o := MessageOption(RefactorCommit, "", "message", "", [], true);
    assert HeaderLine(o) == "refactor" + "!" + ": message";
  }
}

/**
 * The issue descriptions of internal/integrations/issue.go: the text shown in the issue
 * picker, its one-line form, and the branch an issue turns into.
 */
module Issue {
  import opened Text
  import opened Branch

  /** IssueDescription */
  datatype IssueDescription = IssueDescription(
    id: string,
    name: string,
    description: string,
    provider: string,
    itype: string)

  /** A strings.Builder: the text written so far. */
  class Builder {
    var buf: string

    constructor ()
      ensures buf == ""
    {
      buf := "";
    }

    /** WriteString: appends `s`. */
    method WriteString(s: string)
      modifies this
      ensures buf == old(buf) + s
    {
      buf := buf + s;
    }
  }

  /** The text Format writes without colours. */
  function FormatText(d: IssueDescription): string {
    ShortFormat(d) + DescriptionPart(d.description) + "\n\n" + ProviderLine(d.provider)
  }

  /** The description after a blank line, or nothing when it is empty. */
  function DescriptionPart(description: string): string {
    if description != "" then "\n\n" + description else ""
  }

  /** Format(false): the id, the name, the description when there is one, and the provider. */
  method Format(d: IssueDescription) returns (out: string)
    ensures out == FormatText(d)
  {
    var sb := new Builder();
    sb.WriteString(d.id);
    sb.WriteString(" - ");
    sb.WriteString(d.name);
    assert sb.buf == ShortFormat(d);
    if d.description != "" {
      sb.WriteString("\n\n");
      sb.WriteString(d.description);
    }
    ghost var body := sb.buf;
    assert body == ShortFormat(d) + DescriptionPart(d.description);
    sb.WriteString("\n\n");
    sb.WriteString("Issue provided by ");
    sb.WriteString(d.provider);
    assert sb.buf == body + "\n\n" + ProviderLine(d.provider);
    out := sb.buf;
  }

  /** ShortFormat */
  function ShortFormat(d: IssueDescription): string {
    d.id + " - " + d.name
  }

  /** The last line of the text, naming the provider. */
  function ProviderLine(provider: string): string {
    "Issue provided by " + provider
  }

  /**
   * The lines of the text: the short form, then the description and the provider line, each
   * after a blank line, the description only when it is not empty.
   */
  function FormatLines(d: IssueDescription): seq<string> {
    [ShortFormat(d), ""] + (if d.description != "" then [d.description, ""] else []) + [ProviderLine(d.provider)]
  }

  /** Joining lines that follow a first line with a blank line in between. */
  lemma JoinAfterBlank(first: string, rest: seq<string>)
    requires |rest| > 0
    ensures Join([first, ""] + rest, '\n') == first + "\n\n" + Join(rest, '\n')
  {
    JoinConcat([first, ""], rest, '\n');
    var pair := [first, ""];
    assert pair[1..] == [""];
    assert Join(pair, '\n') == first + ['\n'] + "";
    assert first + ['\n'] + "" + ['\n'] == first + "\n\n";
  }

  /** The text is its lines joined by line breaks. */
  lemma FormatJoinsLines(d: IssueDescription)
    ensures Join(FormatLines(d), '\n') == FormatText(d)
  {
    var ls := FormatLines(d);
    var short := ShortFormat(d);
    var last := ProviderLine(d.provider);
    if d.description != "" {
      assert ls == [short, ""] + ([d.description, ""] + [last]);
      JoinAfterBlank(d.description, [last]);
      assert Join([last], '\n') == last;
      JoinAfterBlank(short, [d.description, ""] + [last]);
      AppendAssoc(short + DescriptionPart(d.description), "\n\n", last);
    } else {
      assert ls == [short, ""] + [last];
      JoinAfterBlank(short, [last]);
    }
  }

  /**
   * Where no field holds a line break, splitting the text at line breaks gives back its lines,
   * so the short form opens the text, the description (when there is one) sits on its own line
   * and the provider closes it.
   */
  lemma FormatSplitsIntoLines(d: IssueDescription)
    requires '\n' !in d.id && '\n' !in d.name && '\n' !in d.description && '\n' !in d.provider
    ensures Split(FormatText(d), '\n') == FormatLines(d)
    ensures FormatLines(d)[0] == ShortFormat(d)
    ensures FormatLines(d)[|FormatLines(d)| - 1] == ProviderLine(d.provider)
    ensures |FormatLines(d)| == if d.description != "" then 5 else 3
  {
    var ls := FormatLines(d);
    assert '\n' !in " - " && '\n' !in "Issue provided by ";
    assert '\n' !in ShortFormat(d) && '\n' !in ProviderLine(d.provider);
    assert forall i :: 0 <= i < |ls| ==> '\n' !in ls[i];
    FormatJoinsLines(d);
    SplitJoin(ls, '\n');
  }

  /** The one-line form is where the full text starts, and the provider line where it ends. */
  lemma ShortFormatPrefix(d: IssueDescription)
    ensures ShortFormat(d) <= FormatText(d)
    ensures HasSuffix(FormatText(d), ProviderLine(d.provider))
  {
    var t := FormatText(d);
    var p := ProviderLine(d.provider);
    var head := ShortFormat(d) + DescriptionPart(d.description) + "\n\n";
    assert t == head + p;
    assert t[|t| - |p|..] == p;
    assert t == ShortFormat(d) + (DescriptionPart(d.description) + "\n\n" + p);
  }

  /** The description adds its text after a blank line, and nothing else changes. */
  lemma FormatDescription(d: IssueDescription)
    requires d.description != ""
    ensures var bare := d.(description := "");
      FormatText(d) == ShortFormat(d) + "\n\n" + d.description + FormatText(bare)[|ShortFormat(d)|..]
  {
    var bare := d.(description := "");
    var tail := "\n\n" + ProviderLine(d.provider);
    assert FormatText(bare) == ShortFormat(d) + tail;
    assert FormatText(bare)[|ShortFormat(d)|..] == tail;
  }

  /**
   * ToBranch: the issue id becomes the prefix, its name the description, and its type the
   * branch type, lower-cased and then rewritten.
   */
  function ToBranch(d: IssueDescription, rwtype: map<string, string>): (r: TugBranch)
    ensures r.prefix == d.id && r.description == d.name
    ensures var t := ToLower(d.itype); r.btype == if t in rwtype then rwtype[t] else t
  {
    WithType(TugBranch("", d.id, d.name), d.itype, rwtype)
  }

  // ---------------------------------------------------------------------------
  // The cases of internal/integrations/issue_test.go.

  /** With a description, the text is the five fields and separators in a row. */
  lemma FormatWithDescription(id: string, name: string, desc: string, provider: string, t: string)
    requires desc != ""
    ensures FormatText(IssueDescription(id, name, desc, provider, t)) ==
      id + " - " + name + "\n\n" + desc + "\n\n" + "Issue provided by " + provider
  {
  }

  lemma FormatExample()
    ensures FormatText(IssueDescription("ID-245", "Issue name", "An issue description.", "Jira", "type")) ==
      "ID-245" + " - " + "Issue name" + "\n\n" + "An issue description." + "\n\n" + "Issue provided by " + "Jira"
  {
    FormatWithDescription("ID-245", "Issue name", "An issue description.", "Jira", "type");
  }

  lemma ShortFormatExample()
    ensures ShortFormat(IssueDescription("ID-245", "Issue name", "An issue description.", "Jira", "type")) ==
      "ID-245 - Issue name"
  {
  }

  lemma ToBranchExample()
    ensures ToBranch(IssueDescription("ID-245", "feature 245.", "", "", "feat"), map[]) ==
      TugBranch("feat", "ID-245", "feature 245.")
  {
    assert ToLower("feat") == "feat";
  }
}

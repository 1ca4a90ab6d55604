/**
 * TugBranch of pkg/format/branch.go: a branch is a type, an optional prefix (an issue id, a
 * user name) and a description, written as "type/prefix/description" with the description in
 * lower case and its spaces turned into dashes, and read back from such a name.
 */
module Branch {
  import opened Wrappers
  import opened Text
  import opened Sanitize
  import opened Paths

  datatype TugBranch = TugBranch(btype: string, prefix: string, description: string)

  /** DefaultTypeRewrite: the issue types of trackers mapped onto commit types. */
  const DefaultTypeRewrite: map<string, string> :=
    map["feature" := "feat", "bug" := "fix", "task" := "feat", "story" := "feat"]

  const BadBranchFormat: string := "Bad branch format"

  /** The panic of indexing the first rune of an empty description. */
  const EmptyDescriptionPanic: string := "runtime error: index out of range [0] with length 0"

  /** What ParseBranch does: returns a branch and maybe an error, or panics. */
  datatype ParseOutcome = Returned(branch: TugBranch, err: Option<string>) | Panicked(reason: string)

  /** TugBranch.String: the elements joined as a path, the description lower-cased, then cleaned. */
  function BranchString(tb: TugBranch): string {
    SanitizePkg(PathJoin([tb.btype, tb.prefix, ToLower(tb.description)]))
  }

  /** The first character upper-cased, as ParseBranch does with the description's first rune. */
  function Capitalize(desc: string): (r: string)
    requires |desc| > 0
    ensures |r| == |desc| && r[0] == UpperChar(desc[0]) && !IsLowerAscii(r[0]) && r[1..] == desc[1..]
  {
    [UpperChar(desc[0])] + desc[1..]
  }

  /**
   * ParseBranch: at most three parts split at '/'; one part is a bad format; with two the second
   * is the description, with three the middle one is the prefix. Dashes in the description
   * become spaces and its first character is upper-cased, which panics on an empty description.
   */
  function ParseBranch(s: string): (r: ParseOutcome)
    ensures (r.Returned? && r.err.Some?) <==> '/' !in s
    ensures r.Returned? && r.err.Some? ==> r == Returned(TugBranch("", "", ""), Some(BadBranchFormat))
    ensures r.Returned? && r.err.None? ==>
      '/' !in r.branch.btype && '/' !in r.branch.prefix && '-' !in r.branch.description &&
      |r.branch.description| > 0 && !IsLowerAscii(r.branch.description[0])
    ensures r.Panicked? <==> '/' in s && SplitN(s, '/', 3)[|SplitN(s, '/', 3)| - 1] == ""
    ensures r.Panicked? ==> r.reason == EmptyDescriptionPanic
  {
    var split := SplitN(s, '/', 3);
    if |split| < 2 then Returned(TugBranch("", "", ""), Some(BadBranchFormat))
    else
      var tb := if |split| < 3 then TugBranch(split[0], "", split[1]) else TugBranch(split[0], split[1], split[2]);
      var desc := ReplaceChar(tb.description, '-', ' ');
      if |desc| == 0 then Panicked(EmptyDescriptionPanic)
      else
        var d := Capitalize(desc);
        assert forall i :: 0 <= i < |d| ==> d[i] != '-';
        Returned(tb.(description := d), None)
  }

  /** TugBranch.WithType: the lower-cased type, or what the rewrite map maps it to. */
  function WithType(tb: TugBranch, t: string, rewrite: map<string, string>): (r: TugBranch)
    ensures r.prefix == tb.prefix && r.description == tb.description
    ensures var ts := ToLower(t); r.btype == if ts in rewrite then rewrite[ts] else ts
  {
    var ts := ToLower(t);
    if ts in rewrite then tb.(btype := rewrite[ts]) else tb.(btype := ts)
  }

  // ---------------------------------------------------------------------------
  // The round trip between String and ParseBranch.

  /** A character that neither the cleaning, path.Join nor ParseBranch treats specially. */
  predicate SafeChar(c: char) {
    c !in PkgForbidden && c != '.' && c != '/' && c != '@' && c != '-' && !IsBlank(c)
  }

  /** A type or prefix that String writes as it is (it may hold dashes). */
  predicate SafeName(s: string) {
    forall i :: 0 <= i < |s| ==> SafeChar(s[i]) || s[i] == '-'
  }

  /**
   * A description String and ParseBranch carry through: words of safe characters separated by
   * single spaces, capitalised at most in its first character.
   */
  predicate SafeDescription(d: string) {
    |d| > 0 && !IsLowerAscii(d[0]) &&
    (forall i :: 0 <= i < |d| ==> SafeChar(d[i]) || d[i] == ' ') &&
    (forall i :: 1 <= i < |d| ==> !IsUpperAscii(d[i])) &&
    (forall i :: 0 <= i < |d| - 1 ==> !(d[i] == ' ' && d[i + 1] == ' '))
  }

  /** A branch whose name reads back as itself. */
  predicate RoundTrips(tb: TugBranch) {
    tb.btype != "" && SafeName(tb.btype) && SafeName(tb.prefix) && SafeDescription(tb.description)
  }

  /** The lower-cased description with its spaces as dashes: the last part of the name. */
  function Slug(d: string): string {
    ReplaceChar(ToLower(d), ' ', '-')
  }

  /** The type and the prefix, each followed by '/': the name before the slug. */
  function Lead(tb: TugBranch): string {
    tb.btype + "/" + (if tb.prefix == "" then "" else tb.prefix + "/")
  }

  /** The characters of a safe name before cleaning. */
  predicate NameChar(c: char) {
    SafeChar(c) || c == '-' || c == '/' || c == ' '
  }

  /** Lower-casing a safe description keeps it safe and loses only the first capital. */
  lemma LowerSafe(d: string)
    requires SafeDescription(d)
    ensures var ld := ToLower(d);
      |ld| == |d| && (forall i :: 0 <= i < |ld| ==> SafeChar(ld[i]) || ld[i] == ' ') &&
      (forall i :: 0 <= i < |ld| - 1 ==> !(ld[i] == ' ' && ld[i + 1] == ' ')) &&
      ld[1..] == d[1..] && UpperChar(ld[0]) == d[0]
  {
    var ld := ToLower(d);
    forall i | 0 <= i < |ld| - 1 ensures !(ld[i] == ' ' && ld[i + 1] == ' ') {
      assert !(d[i] == ' ' && d[i + 1] == ' ');
    }
    assert forall i :: 1 <= i < |d| ==> ld[i] == d[i];
  }

  /** A name character is never removed, never starts a pair, and is blank only as a space. */
  lemma NameCharFacts(c: char)
    requires NameChar(c)
    ensures c !in PkgForbidden && c != '.' && c != '@' && (IsBlank(c) ==> c == ' ')
  {
  }

  /**
   * The cleaning leaves a text of name characters (and maybe a final '.') without two spaces
   * in a row as it is, but for its spaces, which become dashes.
   */
  lemma CleanNameChars(s: string)
    requires forall i :: 0 <= i < |s| ==> NameChar(s[i]) || (i == |s| - 1 && s[i] == '.')
    requires forall i :: 0 <= i < |s| - 1 ==> !(s[i] == ' ' && s[i + 1] == ' ')
    ensures CollapseBlank(RemoveForbidden(s, PkgForbidden)) == ReplaceChar(s, ' ', '-')
  {
    forall i | 0 <= i < |s| ensures s[i] !in PkgForbidden && (IsBlank(s[i]) ==> s[i] == ' ') {
      if NameChar(s[i]) { NameCharFacts(s[i]); }
    }
    forall i | 0 <= i < |s| - 1 ensures s[i] != '.' && s[i] != '@' {
      NameCharFacts(s[i]);
    }
    CleanSpaced(s, PkgForbidden);
  }

  /** The lead is made of name characters without a space. */
  lemma LeadChars(tb: TugBranch)
    requires SafeName(tb.btype) && SafeName(tb.prefix)
    ensures forall i :: 0 <= i < |Lead(tb)| ==> NameChar(Lead(tb)[i]) && Lead(tb)[i] != ' '
  {
    var a := tb.btype + "/";
    assert forall i :: 0 <= i < |a| ==> NameChar(a[i]) && a[i] != ' ';
    if tb.prefix != "" {
      var b := tb.prefix + "/";
      assert forall i :: 0 <= i < |b| ==> NameChar(b[i]) && b[i] != ' ';
      assert Lead(tb) == a + b;
    } else {
      assert Lead(tb) == a;
    }
  }

  /** The path String builds of a safe branch: the lead and the lower-cased description. */
  lemma PathOfSafe(tb: TugBranch, ld: string)
    requires RoundTrips(tb) && ld != "" && '/' !in ld && ld != "." && ld != ".."
    ensures PathJoin([tb.btype, tb.prefix, ld]) == Lead(tb) + ld
  {
    assert tb.btype != "." && tb.btype != ".." by { assert tb.btype[0] != '.'; }
    assert '/' !in tb.btype;
    assert tb.prefix != "" ==> tb.prefix != "." && tb.prefix != ".." && '/' !in tb.prefix by {
      if tb.prefix != "" { assert tb.prefix[0] != '.'; }
    }
    PathJoinPlain([tb.btype, tb.prefix, ld]);
    NonEmptyThree(tb.btype, tb.prefix, ld);
    if tb.prefix != "" {
      assert Join([tb.prefix, ld], '/') == tb.prefix + "/" + ld;
    }
  }

  /**
   * Name characters without a space, followed by a text of safe characters and single spaces
   * (and maybe a final '.'), make a text of the same kind.
   */
  lemma ConcatNameChars(lead: string, body: string)
    requires forall i :: 0 <= i < |lead| ==> NameChar(lead[i]) && lead[i] != ' '
    requires forall i :: 0 <= i < |body| ==> SafeChar(body[i]) || body[i] == ' ' || (i == |body| - 1 && body[i] == '.')
    requires forall i :: 0 <= i < |body| - 1 ==> !(body[i] == ' ' && body[i + 1] == ' ')
    ensures var raw := lead + body;
      (forall i :: 0 <= i < |raw| ==> NameChar(raw[i]) || (i == |raw| - 1 && raw[i] == '.')) &&
      (forall i :: 0 <= i < |raw| - 1 ==> !(raw[i] == ' ' && raw[i + 1] == ' '))
  {
    var raw := lead + body;
    forall i | 0 <= i < |raw| ensures NameChar(raw[i]) || (i == |raw| - 1 && raw[i] == '.') {
      if i >= |lead| { assert raw[i] == body[i - |lead|]; } else { assert raw[i] == lead[i]; }
    }
    forall i | 0 <= i < |raw| - 1 ensures !(raw[i] == ' ' && raw[i + 1] == ' ') {
      if i >= |lead| {
        var j := i - |lead|;
        assert raw[i] == body[j] && raw[i + 1] == body[j + 1];
        assert !(body[j] == ' ' && body[j + 1] == ' ');
      } else {
        assert raw[i] == lead[i] != ' ';
      }
    }
  }

  /** The lead joined to a text without capitals or dashes, cleaned as String cleans. */
  lemma CleanLead(tb: TugBranch, body: string)
    requires SafeName(tb.btype) && SafeName(tb.prefix)
    requires forall i :: 0 <= i < |body| ==> SafeChar(body[i]) || body[i] == ' ' || (i == |body| - 1 && body[i] == '.')
    requires forall i :: 0 <= i < |body| - 1 ==> !(body[i] == ' ' && body[i + 1] == ' ')
    ensures CollapseBlank(RemoveForbidden(Lead(tb) + body, PkgForbidden)) == Lead(tb) + ReplaceChar(body, ' ', '-')
  {
    var lead := Lead(tb);
    LeadChars(tb);
    ConcatNameChars(lead, body);
    CleanNameChars(lead + body);
    ReplaceCharConcat(lead, body, ' ', '-');
    ReplaceCharAbsent(lead, ' ', '-');
  }

  /** What String makes of a safe branch: "type/prefix/slug", or "type/slug" without a prefix. */
  lemma BranchStringSafe(tb: TugBranch)
    requires RoundTrips(tb)
    ensures BranchString(tb) == Lead(tb) + Slug(tb.description)
  {
    var ld := ToLower(tb.description);
    LowerSafe(tb.description);
    assert ld[0] != '.' && '/' !in ld;
    PathOfSafe(tb, ld);
    CleanLead(tb, ld);
    var out := Lead(tb) + Slug(tb.description);
    assert out[0] == tb.btype[0];
    assert out[|out| - 1] == Slug(tb.description)[|ld| - 1];
    TrimEnds(out, {'.', '/'});
  }

  /** A lower-cased safe description followed by a full stop, as the cleaning sees it. */
  lemma StoppedChars(ld: string)
    requires |ld| > 0 && forall i :: 0 <= i < |ld| ==> SafeChar(ld[i]) || ld[i] == ' '
    requires forall i :: 0 <= i < |ld| - 1 ==> !(ld[i] == ' ' && ld[i + 1] == ' ')
    ensures var body := ld + ".";
      body[0] != '.' && '/' !in body &&
      (forall i :: 0 <= i < |body| ==> SafeChar(body[i]) || body[i] == ' ' || (i == |body| - 1 && body[i] == '.')) &&
      (forall i :: 0 <= i < |body| - 1 ==> !(body[i] == ' ' && body[i + 1] == ' '))
  {
    var body := ld + ".";
    assert forall i :: 0 <= i < |ld| ==> body[i] == ld[i];
    forall i | 0 <= i < |body| - 1 ensures !(body[i] == ' ' && body[i + 1] == ' ') {
      if i < |ld| - 1 { assert body[i] == ld[i] && body[i + 1] == ld[i + 1]; }
    }
  }

  /** A full stop at the end of a safe description is dropped by String. */
  lemma BranchStringFullStop(tb: TugBranch, stopped: string)
    requires RoundTrips(tb) && stopped == tb.description + "."
    ensures BranchString(tb.(description := stopped)) == Lead(tb) + Slug(tb.description)
  {
    var ld := ToLower(tb.description);
    LowerSafe(tb.description);
    var body := ld + ".";
    assert ToLower(stopped) == body;
    StoppedChars(ld);
    PathOfSafe(tb, body);
    assert Lead(tb.(description := stopped)) == Lead(tb);
    CleanLead(tb, body);
    var out := Lead(tb) + Slug(tb.description);
    ReplaceCharConcat(ld, ".", ' ', '-');
    assert Lead(tb) + ReplaceChar(body, ' ', '-') == out + ['.'];
    assert out[0] == tb.btype[0];
    assert out[|out| - 1] == Slug(tb.description)[|ld| - 1];
    TrimDropsLast(out, '.', {'.', '/'});
  }

  /** How ParseBranch reads "type/prefix/rest" (or "type/rest") when the parts hold no '/'. */
  lemma ParseLead(tb: TugBranch, x: string)
    requires '/' !in tb.btype && '/' !in tb.prefix && '/' !in x && x != ""
    ensures ParseBranch(Lead(tb) + x) ==
      Returned(TugBranch(tb.btype, tb.prefix, Capitalize(ReplaceChar(x, '-', ' '))), None)
  {
    if tb.prefix == "" {
      assert Lead(tb) + x == tb.btype + "/" + x;
      SplitNAfterSep(tb.btype, x, '/', 3);
      SplitNWithoutSep(x, '/', 2);
    } else {
      assert Lead(tb) + x == tb.btype + "/" + (tb.prefix + "/" + x);
      SplitNAfterSep(tb.btype, tb.prefix + "/" + x, '/', 3);
      SplitNAfterSep(tb.prefix, x, '/', 2);
    }
  }

  /** ParseBranch turns the slug of a safe description back into the description. */
  lemma SlugBack(d: string)
    requires SafeDescription(d)
    ensures '/' !in Slug(d) && Slug(d) != ""
    ensures Capitalize(ReplaceChar(Slug(d), '-', ' ')) == d
  {
    var ld := ToLower(d);
    LowerSafe(d);
    assert forall i :: 0 <= i < |ld| ==> ld[i] != '-';
    ReplaceCharBack(ld, ' ', '-');
    assert forall i :: 0 <= i < |ld| ==> Slug(d)[i] != '/';
  }

  /** A safe branch reads back from the name String gives it. */
  lemma ParseBranchString(tb: TugBranch)
    requires RoundTrips(tb)
    ensures ParseBranch(BranchString(tb)) == Returned(tb, None)
  {
    BranchStringSafe(tb);
    SlugBack(tb.description);
    assert '/' !in tb.btype && '/' !in tb.prefix;
    ParseLead(tb, Slug(tb.description));
  }

  /** The branch a name reads as names itself again: String undoes ParseBranch on safe names. */
  lemma BranchStringParse(s: string)
    requires ParseBranch(s).Returned? && ParseBranch(s).err.None? && RoundTrips(ParseBranch(s).branch)
    ensures ParseBranch(BranchString(ParseBranch(s).branch)) == ParseBranch(s)
  {
    ParseBranchString(ParseBranch(s).branch);
  }

  /** TugBranch.String has no white space, no forbidden character, no '.' or '/' at its ends. */
  lemma BranchStringClean(tb: TugBranch)
    ensures var r := BranchString(tb);
      (forall i :: 0 <= i < |r| ==> !IsBlank(r[i]) && r[i] !in PkgForbidden) &&
      (|r| > 0 ==> r[0] !in {'.', '/'} && r[|r| - 1] !in {'.', '/'})
  {
    SanitizePkgClean(PathJoin([tb.btype, tb.prefix, ToLower(tb.description)]));
  }

  /** A name without '/' is a bad format, whatever else it holds; with one it is never rejected. */
  lemma ParseBranchCases(s: string)
    ensures '/' !in s <==> ParseBranch(s) == Returned(TugBranch("", "", ""), Some(BadBranchFormat))
    ensures '/' in s ==> ParseBranch(s).Panicked? || ParseBranch(s).err.None?
  {
  }

  /** A type maps to itself under the default rewrite once rewritten: WithType is idempotent there. */
  lemma WithTypeDefaultStable(tb: TugBranch, t: string)
    ensures var r := WithType(tb, t, DefaultTypeRewrite); WithType(r, r.btype, DefaultTypeRewrite) == r
  {
    var ts := ToLower(t);
    assert ToLower(ts) == ts;
    assert ToLower("feat") == "feat" && ToLower("fix") == "fix";
    assert "feat" !in DefaultTypeRewrite && "fix" !in DefaultTypeRewrite;
  }

  // ---------------------------------------------------------------------------
  // The cases of pkg/format/branch_test.go.

  /** An ASCII letter is a safe character. */
  lemma LetterSafe(c: char)
    requires IsUpperAscii(c) || IsLowerAscii(c)
    ensures SafeChar(c)
  {
  }

  /** A capitalised phrase of ASCII letters and single spaces is a safe description. */
  lemma PhraseSafe(d: string)
    requires |d| > 0 && IsUpperAscii(d[0])
    requires forall i :: 1 <= i < |d| ==> IsLowerAscii(d[i]) || d[i] == ' '
    requires forall i :: 0 <= i < |d| - 1 ==> d[i] != ' ' || d[i + 1] != ' '
    ensures SafeDescription(d)
  {
    forall i | 0 <= i < |d| ensures SafeChar(d[i]) || d[i] == ' ' {
      if d[i] != ' ' { LetterSafe(d[i]); }
    }
  }

  /** A word of lower-case ASCII letters is a safe name. */
  lemma WordSafe(w: string)
    requires forall i :: 0 <= i < |w| ==> IsLowerAscii(w[i])
    ensures SafeName(w)
  {
    forall i | 0 <= i < |w| ensures SafeChar(w[i]) {
      LetterSafe(w[i]);
    }
  }

  /** The branches of the tests are safe. */
  lemma ExamplesSafe()
    ensures RoundTrips(TugBranch("user", "alice", "Alice branch"))
    ensures RoundTrips(TugBranch("feat", "", "A foo feature"))
  {
    WordSafe("user");
    WordSafe("alice");
    WordSafe("feat");
    WordSafe("");
    PhraseSafe("Alice branch");
    PhraseSafe("A foo feature");
  }

  /** The names of the test branches, assembled from their parts. */
  lemma UserName()
    ensures Lead(TugBranch("user", "alice", "Alice branch")) + Slug("Alice branch") == "user/alice/alice-branch"
  {
  }

  lemma FeatName()
    ensures Lead(TugBranch("feat", "", "A foo feature")) + Slug("A foo feature") == "feat/a-foo-feature"
  {
  }

  lemma StringUserExample()
    ensures BranchString(TugBranch("user", "alice", "Alice branch")) == "user/alice/alice-branch"
  {
    ExamplesSafe();
    BranchStringSafe(TugBranch("user", "alice", "Alice branch"));
    UserName();
  }

  lemma StringFeatPlain()
    ensures BranchString(TugBranch("feat", "", "A foo feature")) == "feat/a-foo-feature"
  {
    ExamplesSafe();
    BranchStringSafe(TugBranch("feat", "", "A foo feature"));
    FeatName();
  }

  /** The test's description ends in a full stop, which the trim of '.' removes. */
  lemma StringFeatExample()
    ensures BranchString(TugBranch("feat", "", "A foo feature.")) == "feat/a-foo-feature"
  {
    ExamplesSafe();
    var tb := TugBranch("feat", "", "A foo feature");
    BranchStringFullStop(tb, "A foo feature.");
    FeatName();
  }

  lemma ParseUserExample()
    ensures ParseBranch("user/alice/alice-branch") == Returned(TugBranch("user", "alice", "Alice branch"), None)
  {
    ExamplesSafe();
    ParseBranchString(TugBranch("user", "alice", "Alice branch"));
    StringUserExample();
  }

  lemma ParseFeatExample()
    ensures ParseBranch("feat/a-foo-feature") == Returned(TugBranch("feat", "", "A foo feature"), None)
  {
    ExamplesSafe();
    ParseBranchString(TugBranch("feat", "", "A foo feature"));
    StringFeatPlain();
  }

  lemma ParseErrorExamples()
    ensures ParseBranch("BADBEEF") == Returned(TugBranch("", "", ""), Some(BadBranchFormat))
    ensures ParseBranch("feat/") == Panicked(EmptyDescriptionPanic)
  {
    assert '/' !in "BADBEEF";
    assert "feat/" == "feat" + "/" + "";
    SplitNAfterSep("feat", "", '/', 3);
  }

  lemma WithTypeExamples()
    ensures WithType(TugBranch("", "", ""), "type", map[]) == TugBranch("type", "", "")
    ensures WithType(TugBranch("", "", ""), "type", map["type" := "foo"]) == TugBranch("foo", "", "")
  {
    assert ToLower("type") == "type";
  }
}

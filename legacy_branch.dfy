/**
 * The branch names of internal/format/branch.go, the older branch command: three branch types
 * and a name "type[/user][/description]" cleaned as git branch names are.
 */
module LegacyBranch {
  import opened Wrappers
  import opened Text
  import opened Sanitize

  datatype BranchType = FeatureBranch | FixBranch | UserBranch

  /** BranchType.String */
  function TypeName(b: BranchType): string {
    match b
    case FeatureBranch => "feat"
    case FixBranch => "fix"
    case UserBranch => "user"
  }

  /** AllBranchType: the names of the three types, in declaration order. */
  function AllBranchType(): (r: seq<string>)
    ensures |r| == 3 && forall b: BranchType :: TypeName(b) in r
  {
    [TypeName(FeatureBranch), TypeName(FixBranch), TypeName(UserBranch)]
  }

  /** The error of BranchTypeFrom on a name that is not a type. */
  function NotABranchType(str: string): string {
    str + " is not a branch type, allowed values are f,p and u"
  }

  /** BranchTypeFrom: the type with that name, or the error (returned next to -1). */
  function BranchTypeFrom(str: string): (r: Result<BranchType>)
    ensures r.Ok? <==> str in AllBranchType()
    ensures r.Ok? ==> TypeName(r.value) == str
    ensures r.Err? ==> r.error == NotABranchType(str)
  {
    if str == TypeName(FeatureBranch) then Ok(FeatureBranch)
    else if str == TypeName(FixBranch) then Ok(FixBranch)
    else if str == TypeName(UserBranch) then Ok(UserBranch)
    else Err(NotABranchType(str))
  }

  /** Reading back the name of a type gives the type. */
  lemma BranchTypeRoundTrip(b: BranchType)
    ensures BranchTypeFrom(TypeName(b)) == Ok(b)
  {
  }

  /** The name before cleaning: the type, then "/" + username on a user branch, then "/" + description. */
  function RawBranchName(btype: BranchType, description: string, username: string): string {
    var branch := TypeName(btype) + (if btype == UserBranch then "/" + username else "");
    if description != "" then branch + "/" + description else branch
  }

  /** BranchName */
  function BranchName(btype: BranchType, description: string, username: string): string {
    SanitizeLegacy(RawBranchName(btype, description, username))
  }

  /** BranchName has no white space, none of the forbidden characters and no capital letter. */
  lemma BranchNameClean(btype: BranchType, description: string, username: string)
    ensures var r := BranchName(btype, description, username);
      (forall i :: 0 <= i < |r| ==> !IsBlank(r[i]) && r[i] !in LegacyForbidden && !IsUpperAscii(r[i])) &&
      (|r| > 0 ==> r[0] != '/' && r[|r| - 1] != '/')
  {
    var t := Trim(CollapseBlank(RemoveForbidden(RawBranchName(btype, description, username), LegacyForbidden)), {'/'});
    SanitizeLegacyClean(RawBranchName(btype, description, username));
    if |t| > 0 {
      assert ToLower(t)[0] == LowerChar(t[0]) && ToLower(t)[|t| - 1] == LowerChar(t[|t| - 1]);
    }
  }

  /** Only a user branch holds the user name. */
  lemma BranchNameIgnoresUser(btype: BranchType, description: string, u: string, v: string)
    requires btype != UserBranch
    ensures BranchName(btype, description, u) == BranchName(btype, description, v)
  {
  }

  /** A character the cleaning keeps and that cannot start a pair. */
  predicate PlainChar(c: char) {
    c !in LegacyForbidden && c != '.' && c != '@' && c != '/' && !IsBlank(c)
  }

  /** A user name or a description the cleaning only lower-cases, its single spaces made dashes. */
  predicate Spaced(s: string) {
    (forall i :: 0 <= i < |s| ==> PlainChar(s[i]) || s[i] == ' ') &&
    (forall i :: 0 <= i < |s| - 1 ==> !(s[i] == ' ' && s[i + 1] == ' '))
  }

  /** A spaced text that does not end in '/' is lower-cased with dashes for its spaces. */
  lemma SanitizeLegacySpaced(s: string)
    requires SpacedText(s) && s[|s| - 1] != '/'
    ensures SanitizeLegacy(s) == ToLower(ReplaceChar(s, ' ', '-'))
  {
    CleanSpaced(s, LegacyForbidden);
    var out := ReplaceChar(s, ' ', '-');
    TrimEnds(out, {'/'});
  }

  /**
   * On a user name and a description of plain characters and single spaces (and a non-empty
   * user name on a user branch), BranchName is the raw name lower-cased with dashes for spaces.
   */
  lemma BranchNameSpaced(btype: BranchType, description: string, username: string)
    requires Spaced(description) && Spaced(username)
    requires btype == UserBranch ==> username != ""
    ensures BranchName(btype, description, username) ==
      ToLower(ReplaceChar(RawBranchName(btype, description, username), ' ', '-'))
  {
    var raw := RawBranchName(btype, description, username);
    var user := if btype == UserBranch then username else "";
    var head := TypeName(btype) + (if btype == UserBranch then "/" + username else "");
    TypeNameSpaced(btype);
    SpacedJoin(TypeName(btype), user);
    assert head == if user == "" then TypeName(btype) else TypeName(btype) + "/" + user;
    if description != "" {
      SpacedJoin(head, description);
      assert raw[|raw| - 1] == description[|description| - 1];
    } else if btype == UserBranch {
      assert raw[|raw| - 1] == username[|username| - 1];
    } else {
      assert raw == TypeName(btype);
    }
    SanitizeLegacySpaced(raw);
  }

  /** The facts CleanSpaced needs, about a text and its parts. */
  predicate SpacedText(s: string) {
    |s| > 0 && s[0] != '/' &&
    (forall i :: 0 <= i < |s| ==> (PlainChar(s[i]) || s[i] == ' ' || s[i] == '/')) &&
    (forall i :: 0 <= i < |s| - 1 ==> !(s[i] == ' ' && s[i + 1] == ' '))
  }

  /** Joining a spaced text and a spaced part with '/' (or leaving out an empty part) stays spaced. */
  lemma SpacedJoin(a: string, b: string)
    requires SpacedText(a) && Spaced(b)
    ensures SpacedText(if b == "" then a else a + "/" + b)
  {
    if b != "" {
      var s := a + "/" + b;
      forall i | 0 <= i < |s| ensures PlainChar(s[i]) || s[i] == ' ' || s[i] == '/' {
        if i > |a| { assert s[i] == b[i - |a| - 1]; } else if i < |a| { assert s[i] == a[i]; }
      }
      forall i | 0 <= i < |s| - 1 ensures !(s[i] == ' ' && s[i + 1] == ' ') {
        if i > |a| {
          var j := i - |a| - 1;
          assert s[i] == b[j] && s[i + 1] == b[j + 1];
          assert !(b[j] == ' ' && b[j + 1] == ' ');
        } else if i < |a| - 1 {
          assert s[i] == a[i] && s[i + 1] == a[i + 1];
        }
      }
    }
  }

  /** The name of a type is a spaced text. */
  lemma TypeNameSpaced(b: BranchType)
    ensures SpacedText(TypeName(b))
  {
    var a := TypeName(b);
    assert forall i :: 0 <= i < |a| ==> IsLowerAscii(a[i]);
  }

  /** Lower-case ASCII words with single spaces are spaced. */
  lemma WordsSpaced(s: string)
    requires forall i :: 0 <= i < |s| ==> IsLowerAscii(s[i]) || s[i] == ' '
    requires forall i :: 0 <= i < |s| - 1 ==> s[i] != ' ' || s[i + 1] != ' '
    ensures Spaced(s)
  {
  }

  // ---------------------------------------------------------------------------
  // The cases of internal/format/branch_test.go.

  lemma ExamplesSpaced()
    ensures Spaced("my branch") && Spaced("some patch") && Spaced("alice branch")
    ensures Spaced("bob") && Spaced("alice") && Spaced("")
  {
    WordsSpaced("my branch");
    WordsSpaced("some patch");
    WordsSpaced("alice branch");
    WordsSpaced("bob");
    WordsSpaced("alice");
  }

  lemma RawFeatExample()
    ensures ToLower(ReplaceChar(RawBranchName(FeatureBranch, "my branch", "bob"), ' ', '-')) == "feat/my-branch"
  {
  }

  lemma RawFixExample()
    ensures ToLower(ReplaceChar(RawBranchName(FixBranch, "some patch", "alice"), ' ', '-')) == "fix/some-patch"
  {
  }

  lemma RawUserExample()
    ensures ToLower(ReplaceChar(RawBranchName(UserBranch, "", "bob"), ' ', '-')) == "user/bob"
  {
  }

  lemma RawUserDescribedExample()
    ensures ToLower(ReplaceChar(RawBranchName(UserBranch, "alice branch", "alice"), ' ', '-')) == "user/alice/alice-branch"
  {
  }

  lemma BranchNameExamples()
    ensures BranchName(FeatureBranch, "my branch", "bob") == "feat/my-branch"
    ensures BranchName(FixBranch, "some patch", "alice") == "fix/some-patch"
    ensures BranchName(UserBranch, "", "bob") == "user/bob"
    ensures BranchName(UserBranch, "alice branch", "alice") == "user/alice/alice-branch"
  {
    ExamplesSpaced();
    BranchNameSpaced(FeatureBranch, "my branch", "bob");
    BranchNameSpaced(FixBranch, "some patch", "alice");
    BranchNameSpaced(UserBranch, "", "bob");
    BranchNameSpaced(UserBranch, "alice branch", "alice");
    RawFeatExample();
    RawFixExample();
    RawUserExample();
    RawUserDescribedExample();
  }

  lemma BranchTypeFromExamples()
    ensures BranchTypeFrom("feat") == Ok(FeatureBranch) && BranchTypeFrom("fix") == Ok(FixBranch)
    ensures BranchTypeFrom("user") == Ok(UserBranch)
    ensures BranchTypeFrom("nope") == Err(NotABranchType("nope"))
  {
    assert "nope" != "feat" && "nope" != "fix" && "nope" != "user";
  }
}

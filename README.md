# turbogit release core, in Dafny

turbogit is a git helper that writes and reads Conventional Commits messages, names branches
after their type and issue, and tags releases with the next semantic version found from the
commits since the last tag. This project models the core of it:

- the Conventional Commits codec of `pkg/format/commit.go`. That covers the type grammar
  (`FindCommitType`), the formatter and parser of a message, the `Check` gate, the field-wise
  `Overwrite`, and the bump classifier `NextBump`. The older formatter of
  `internal/format/commit.go` is modelled too;
- the release engine. It covers `parseDescription` (in `cmd/walker.go` and `cmd/tag.go`), the
  two commit walkers, and `bumpVersion` in its three copies. It also covers `runRelease`/`run`
  with `tagHead` and the older `runTag`;
- branch names. That is `TugBranch` (`String`, `ParseBranch`, `WithType`) and
  `sanitizeBranch` in `pkg/format/branch.go`, plus the older `BranchName`/`BranchTypeFrom` of
  `internal/format/branch.go`;
- the log filters of `cmd/log-filter.go`, the configuration value parser `parseValue` of
  `cmd/config.go`, the issue text of `internal/integrations/issue.go`, and the boolean
  directives of `pkg/config/bool.go`.

## Layout

Each module follows one part of the program:

- `Wrappers` holds `Option` and `Result`.
- `Text` holds the string operations of Go's `strings` and `strconv` that the core uses.
- `Commit` and `LegacyCommit` are the two commit codecs.
- `Semver` is the version value and its parser.
- `Bumping` is `bumpVersion`.
- `Describe` is `parseDescription`.
- `Walker` holds the commit walkers.
- `Repo` is a repository with HEAD and references.
- `Release` and `Tag` are the commands.
- `Sanitize`, `Paths`, `Branch` and `LegacyBranch` are branch names.
- `LogFilter`, `ConfigValue`, `Issue` and `BoolDirective` model the files of the same names.

Where the source updates state in place, the model does the same:

- A `CommitMessageOption`, a `semver.Version`, a walker closure's captured pointers, a git
  configuration, a `strings.Builder` and the references of a repository are classes.
- Their methods are proved equal to a function of the old state, and the properties are lemmas
  about those functions.
- Loops over footers, lines, filters, list pieces, map keys and commits are `while` loops with
  invariants.

Decisions where the code and the usual reading of it part ways. In each case the model follows
the code:

- `ParseCommitMsg` concatenates body lines without a separator.
- The perf pattern accepts `perf:ormance`.
- The old `CommitMessage` joins its body and footers with a single line break, although its
  test expects blank lines. `LegacyCommit.FullMessageLacksBlankLines` states the text the code
  builds, and `LegacyCommit.FormatIntended` is the corrected formatter (see Findings).
- `AnyBoolDirective` and `BoolDirective` ignore the error of `SetBool` and report success after
  a fix even when nothing was written (see Findings).
- `(?i)^true|false$` sends any text that starts with `true` or ends with `false` to
  `ParseBool`. Such a text is then either a boolean or an error, never a plain string.
- `^\d+(\.|,)\d+$` accepts a decimal comma, which `ParseFloat` rejects. `"1,5"` is therefore an
  error.
- The release walker copies `*v` before checking the error of `parseDescription`, so a tag that
  is not SemVer, or an Atoi error, is a nil dereference (`Walker.Kind`). The tag walker stores
  the nil version instead.
- `ParseBranch` indexes the first rune of an empty description, so `"feat/"` is a panic, which
  the model represents as an outcome.
- `offset++` on an `int` wraps at 2^63-1, and `Increment*` on a `uint64` field wraps at 2^64.
  Both wrap-arounds are written out.

## Model

| member | source | states |
|---|---|---|
| Commit.AllCommitType | pkg/format/commit.go:65-78 | ten names, and a type's name is among them exactly when it is not NilCommit |
| Commit.TypeReFirstRune | pkg/format/commit.go:80-90 | a word a type pattern accepts starts with that type's letter (case-folded, U+017F and U+212A included) |
| Commit.TypeReExclusive | pkg/format/commit.go:80-90 | no word is accepted by two type patterns, so the switch order never matters |
| Commit.FindCommitTypeIff | pkg/format/commit.go:155-181 | FindCommitType(s) is a non-nil type t exactly when t's pattern accepts s |
| Commit.FindCommitTypeNil | pkg/format/commit.go:155-181 | FindCommitType(s) is NilCommit exactly when no pattern accepts s |
| Commit.FindCommitTypeOfString | pkg/format/commit.go:29-43 | every canonical name reads back as its own type |
| Commit.FindCommitTypeBuildChoreDoc | pkg/format/commit_test.go:100-112 | mixed-case build, chore and docs spellings of the type table |
| Commit.FindCommitTypeFeatFixPerf | pkg/format/commit_test.go:114-128 | the feat, fix and perf spellings of the type table |
| Commit.FindCommitTypePerfColonStyle | pkg/format/commit.go:87 | the perf pattern's `(:?ormance)` accepts `perf:ormance`; `stYles` is style |
| Commit.FindCommitTypeRejects | pkg/format/commit_test.go:98 | `fail` is NilCommit |
| Commit.RenderHeaderLines | pkg/format/commit.go:128-138 | a header line holds a line break exactly when its type, scope or subject does |
| Commit.ParseHeaderRender | pkg/format/commit.go:187-203 | the header pattern accepts the rendering of every well-formed header and gives back its type token, scope, `!` and subject |
| Commit.ParseHeaderSound | pkg/format/commit.go:187-203 | whatever the header pattern accepts is the rendering of a well-formed header, so parsing is exact in both directions |
| Commit.FootersOfConcat | pkg/format/commit.go:206-213 | the footer lines of two line lists are the footers of each, in order |
| Commit.BodyOfConcat | pkg/format/commit.go:206-213 | the body of two line lists is the two bodies concatenated with no separator |
| Commit.FormatIsLines | pkg/format/commit.go:127-152 | the formatted message is header, blank line and body (when any), blank line and footers (when any), joined by line breaks |
| Commit.SplitFormat | pkg/format/commit.go:184 | when every part is a single line, splitting the formatted message at line breaks gives back those lines |
| Commit.FormatParseRoundTrip | pkg/format/commit.go:127-217 | parsing a formatted message gives the message back when the type is not Nil, the description is non-empty, the scope has no `)`, the body is not footer-shaped and every footer is |
| Commit.FormatNilNotParsed | pkg/format/commit.go:183-191 | a message formatted without a type is rejected by the parser |
| Commit.NotConventional | pkg/format/commit.go:187-191 | a message whose first line is one `\w` word is not conventional (null) |
| Commit.Check | pkg/format/commit.go:114-124 | passes exactly with a type and a description; the missing type is reported first, with the source's two messages |
| Commit.MergedIdentity | pkg/format/commit.go:109-111 | overlaying the zero message changes nothing, and overlaying onto it copies |
| Commit.MergedAssociative | pkg/format/commit.go:109-111 | two overlays in a row are one overlay of the merged pair |
| Commit.MergedIdempotent | pkg/format/commit.go:109-111 | overlaying the same message twice is overlaying it once |
| Commit.MergedKeepsCheck | pkg/format/commit.go:109-111 | an overlay never blanks a field: a message that passes Check still passes, and a breaking flag is never cleared |
| Commit.MergedExamples | pkg/format/commit_test.go:72-81 | the two overlay cases, breaking flag kept |
| Commit.CommitMessageOption.Overwrite | pkg/format/commit.go:109-111 | no error, and the receiver becomes the field-wise overlay of the other option on it |
| Commit.CommitMessage | pkg/format/commit.go:127-152 | the text built piece by piece is the formatted message |
| Commit.ParseCommitMsg | pkg/format/commit.go:183-217 | null exactly when the header is not conventional; otherwise a fresh option holding the parsed message |
| Commit.NextBumpIsMax | pkg/format/commit.go:229-248 | NextBump(m, b) is the larger of b and what m calls for on its own |
| Commit.NextBumpMonotone | pkg/format/commit.go:229-248 | NextBump never lowers the bump, is monotone in the current bump, and MAJOR absorbs |
| Commit.NextBumpOfFormatted | pkg/format/commit.go:229-248 | on a formatted message: breaking or MAJOR gives MAJOR, feat gives MINOR, fix gives at least PATCH, others leave the bump |
| Commit.NextBumpFeature | pkg/format/commit_test.go:183-186 | `feat: a feature` gives MINOR unless the bump is MAJOR |
| Commit.NextBumpFix | pkg/format/commit_test.go:187-190 | `fix: a fix` gives at least PATCH |
| Commit.NextBumpNotConventional | pkg/format/commit_test.go:191-194 | `baadbeef` leaves the bump unchanged |
| Commit.NextBumpBreaking | pkg/format/commit_test.go:195-198 | `chore!: breaking` gives MAJOR |
| Commit.FormatCommitSimple | pkg/format/commit_test.go:15-18 | `feat: commit description` |
| Commit.FormatCommitScopeBreaking | pkg/format/commit_test.go:19-26 | `perf(scope): message` and `refactor!: message` |
| Commit.FormatCommitFull | pkg/format/commit_test.go:27-30 | every part, with blank lines before the body and before the footers |
| LegacyCommit.TypeStringTable | internal/format/commit.go:7-22 | NilCommit is the sixth value and the only one named `""`, names are distinct, and no type is chore |
| LegacyCommit.CommitMessage | internal/format/commit.go:40-62 | the text built piece by piece is header, body and footers each after a single line break |
| LegacyCommit.FormatIsLines | internal/format/commit.go:40-62 | the message is its header, body (when any) and footers joined by line breaks |
| LegacyCommit.SplitFormat | internal/format/commit.go:40-62 | on single-line parts, splitting at line breaks gives those lines back |
| LegacyCommit.FullMessageLacksBlankLines | internal/format/commit_test.go:26-29 | the full case builds no blank lines, two characters short of what the test expects |
| LegacyCommit.FormatIntendedIsLines | internal/format/commit_test.go:26-29 | the corrected formatter joins header, a blank line and the body, a blank line and the footers by line breaks |
| LegacyCommit.FormatMissesSeparators | internal/format/commit.go:53-59 | the code's text is one character shorter per body or footer block than the corrected one, and equal to it exactly without body and footers |
| LegacyCommit.FormatIntendedTwoFooters | internal/format/commit.go:40-62 | with a body and two footers, the corrected text is header, blank line, body, blank line, then the two footers on lines of their own |
| LegacyCommit.FullMessageIntended | internal/format/commit_test.go:26-29 | the corrected formatter gives the text the full test case expects |
| LegacyCommit.SubjectExample | internal/format/commit_test.go:14-17 | `feat: commit description` |
| LegacyCommit.ScopeExample | internal/format/commit_test.go:18-21 | `perf(scope): message` |
| LegacyCommit.BreakingExample | internal/format/commit_test.go:22-25 | `refactor!: message` |
| Semver.Inc | cmd/release.go:141 | a uint64 increment: plus one, or 0 past 2^64-1 |
| Semver.Version.IncrementPatch | cmd/release.go:141 | the version becomes the one with patch incremented |
| Semver.Version.IncrementMinor | cmd/release.go:139 | the version becomes the one with minor incremented and patch reset |
| Semver.Version.IncrementMajor | cmd/release.go:137 | the version becomes the one with major incremented and minor and patch reset |
| Semver.IncrementsIncrease | cmd/release.go:133-143 | without wrap-around each increment gives a strictly greater version, with the lower parts reset |
| Semver.LessStrictOrder | cmd/release.go:133-143 | the version order is irreflexive, asymmetric and transitive |
| Semver.ParseNumber | cmd/walker.go:65 | a version part is a non-empty digit run below 2^64, with its decimal value |
| Semver.ParsePrinted | cmd/walker.go:65-68 | a printed version, with or without `v`, parses back to itself |
| Semver.ParseTolerantRelease | cmd/tag_test.go:21 | `v1.0.0` parses as 1.0.0 |
| Semver.ParseTolerantLatest | cmd/tag_test.go:23 | `latest` is not a version |
| Bumping.BumpVersion | cmd/release.go:128-145 | a nil version is the error; otherwise no error and the version becomes its bump (the copies at cmd/git-release/cmd/root.go:105-122 and cmd/tag.go:187-204 differ only in the message, passed as `nilError`) |
| Bumping.BumpedIncreases | cmd/release.go:132-144 | NONE is the only bump that keeps the version; any other gives a strictly greater one; a larger bump never gives a smaller version |
| Bumping.BumpedResets | cmd/release.go:133-143 | PATCH adds one to patch, MINOR adds one to minor and resets patch, MAJOR on 0.x is MINOR, otherwise adds one to major and resets the rest |
| Bumping.BumpedExamples | cmd/tag_test.go:52-62 | the eight cases of the bump table on a non-nil version |
| Describe.IncInt64 | cmd/walker.go:61 | `offset++` on an int: plus one, wrapping from 2^63-1 to -2^63 |
| Describe.DigitRunStart | cmd/walker.go:50 | the start of the longest digit run ending at a position |
| Describe.SuffixStart | cmd/walker.go:56 | where a suffix `-N-` plus eight `[a-z0-9]` begins, when the string ends with one |
| Describe.ParseDescriptionOf | cmd/walker.go:56-63 | on `base-N-hash`, an Atoi range error exactly above 2^63-1, else the version of `base` and offset N+1 |
| Describe.ParseDescribed | cmd/walker.go:54-66 | `v<version>-N-<hash>` gives that version and offset N+1 |
| Describe.ParseTagged | cmd/walker.go:54-66 | `v<version>` gives that version and offset 1 |
| Describe.ParseDescriptionCases | cmd/tag.go:206-226 | the only error is an out-of-range digit run, and without it the offset is at least 1 unless N is 2^63-1 |
| Describe.ParseDescriptionTagged | cmd/tag_test.go:21 | `v1.0.0` is (1.0.0, 1) |
| Describe.ParseDescriptionAfterTag | cmd/tag_test.go:22 | `v1.0.0-2-ab23e5f1` is (1.0.0, 3) |
| Describe.ParseDescriptionLatest | cmd/tag_test.go:23 | `latest` is (nil, 1) |
| Describe.ParseDescriptionAfterLatest | cmd/tag_test.go:24 | `latest-3-5570541a` is (nil, 4) |
| Walker.Observe | cmd/walker.go:26-36 | a failed describe, a parse error, or the version and offset parseDescription gives |
| Walker.ObserveAll | cmd/walker.go:25-36 | one observation per commit, in walk order |
| Walker.FirstHalt | cmd/walker.go:41-45 | the first commit that does not let the walk go on; all earlier ones do |
| Walker.KindCases | cmd/walker.go:32-43 | the release walker panics on a parse error or a non-SemVer tag; the tag walker panics only on the parse error; both stop at offset <= 1 |
| Walker.StepBump | cmd/walker.go:25-46 | a visit that goes on raises the bump to the larger of it and the message's; a stop or panic leaves it |
| Walker.StepBumpCall | cmd/walker.go:29-44 | the visit that goes on assigns NextBump of its message; the others do not classify |
| Walker.WalkBump | cmd/walker.go:25-46 | the bump a walk ends with is the largest of the start and the messages before the first halt, so it never decreases |
| Walker.WalkPanics | cmd/walker.go:32-40 | a walk panics exactly when its first halt is a panic |
| Walker.WalkIgnoresRest | cmd/walker.go:41-43 | commits after the first halt change nothing |
| Walker.WalkKeepsVersion | cmd/walker.go:36-37 | the release walker's version is never nil |
| Walker.WalkVariantsAgree | cmd/tag.go:130-151 | on SemVer tags the two walkers give the same bump, and the same version once nil is read as 0.0.0 |
| Walker.CommitWalker.Visit | cmd/walker.go:25-46 | the closure's answer is Kind, and its writes through both pointers are Step |
| Walker.CommitWalker.Iterate | cmd/release.go:93-95 | visiting commits until false or a panic ends in the state and panic of Walk |
| Repo.Repository.Head | cmd/release.go:112-115 | HEAD's target or its error |
| Repo.Repository.CreateReference | cmd/release.go:119-122 | with force off, an existing name is an error and nothing changes; otherwise the reference is added |
| Release.TagHead | cmd/release.go:111-126 | the dry run only reports; otherwise the tag is created at HEAD unless it exists; only a created tag changes the references (the same tagHead is at cmd/git-release/cmd/root.go:88-103) |
| Release.RunRelease | cmd/release.go:76-109 | the outcome and the references are those of ReleaseOutcome: walk from NONE and 0.0.0, nothing to do on NONE, else tag prefix + bumped version (run at cmd/git-release/cmd/root.go:56-86 is the same pipeline) |
| Release.ReleaseCases | cmd/release.go:87-109 | nothing to do exactly when no message before the first halt calls for a bump; a dry run creates nothing; a created tag is new and on HEAD |
| Release.ReleaseTagIsNext | cmd/release.go:101-108 | a tag that is created or would be is prefix + a strictly greater bump of the last release |
| Release.ReleaseAgainIsNothing | cmd/walker.go:41-43 | right after a release (HEAD tagged) there is nothing to do |
| Tag.TagWalker.Visit | cmd/tag.go:130-151 | the closure's answer is Kind, and its reassignment of bump and curr is Step |
| Tag.TagWalker.Iterate | cmd/tag.go:153-155 | visiting commits ends in the state and panic of Walk |
| Tag.RunTag | cmd/tag.go:106-185 | the outcome and references are those of TagOutcome: nil defaults to 0.0.0, prefix `v`, dry run before HEAD |
| Tag.TagAgreesWithRelease | cmd/tag.go:106-185 | on SemVer tags runTag does what runRelease with prefix `v` does |
| Tag.NonSemverTag | cmd/tag.go:141-145 | a non-SemVer tag makes the release walker panic, while the tag walker does not panic; with an offset above 1 it stores nil and walks the rest from 0.0.0 |
| Sanitize.RemoveForbidden | pkg/format/branch.go:78 | no forbidden character is left; only characters of the input remain |
| Sanitize.CollapseBlank | pkg/format/branch.go:79 | no white space is left; a blank run becomes one `-`; nothing else is added |
| Sanitize.SanitizePkgClean | pkg/format/branch.go:77-81 | no white space, none of the forbidden characters, no `.` or `/` at either end |
| Sanitize.SanitizeLegacyClean | internal/format/branch.go:49-54 | no white space, none of its forbidden characters, no capital, no `/` at either end |
| Sanitize.CleanSpaced | pkg/format/branch.go:77-80 | a text of allowed characters with single spaces only has its spaces turned into dashes |
| Sanitize.SanitizeLeavesDoubleDot | pkg/format/branch.go:12 | both sanitizers turn `a.@{.b` into `a..b`, which still holds `..` |
| Sanitize.RemoveForbiddenFixed | pkg/format/branch.go:12 | a text the removal leaves unchanged has no `..` and no `@{` |
| Sanitize.SanitizePkgFixed | pkg/format/branch.go:77-81 | the corrected sanitizer never leaves `..` or `@{`, and keeps the other guarantees |
| Sanitize.SanitizePkgFixedIdempotent | pkg/format/branch.go:77-81 | the corrected sanitizer is idempotent |
| Sanitize.SanitizePkgTrimmed | pkg/format/branch.go:80 | its result has no `.` or `/` at either end |
| Sanitize.SanitizeLegacyFixed | internal/format/branch.go:49-54 | the corrected older sanitizer leaves no `..` or `@{` and keeps its guarantees |
| Sanitize.SanitizePkgFixedAgrees | pkg/format/branch.go:77-81 | the corrected sanitizer gives the code's result whenever one removal pass leaves no `..` or `@{` |
| Sanitize.SanitizeLegacyFixedAgrees | internal/format/branch.go:49-54 | the same for the older sanitizer |
| Sanitize.RemoveForbiddenConcat | pkg/format/branch.go:12 | the removal pass works piece by piece when the first piece does not end in `@` or `.` |
| Sanitize.CollapseBlankRun | pkg/format/branch.go:13 | a run of white space before a word becomes one `-` |
| Sanitize.SanitizePkgDirty | pkg/format/branch_test.go:94-97 | the dirty branch of the test sanitizes to `A-dirty-branch/should-be-cleaned` |
| Sanitize.SanitizeLegacyDirty | internal/format/branch_test.go:10-14 | the dirty branch of the older test sanitizes to `a-dirty-branch/should-be-cleaned` |
| Paths.NonEmpty | pkg/format/branch.go:38 | path.Join keeps no empty element, and an element is kept exactly when it occurs and is not empty |
| Paths.NonEmptyCounts | pkg/format/branch.go:38 | each non-empty element is kept as often as it occurs, repeats included |
| Paths.NonEmptyOne | pkg/format/branch.go:38 | a single element is kept exactly when it is not empty |
| Paths.NonEmptyConcat | pkg/format/branch.go:38 | the filter of a concatenation is the concatenation of the filters, so the order is kept |
| Paths.NonEmptyKeepsRepeats | pkg/format/branch.go:38 | a repeated element such as `a`, `a` is kept twice |
| Paths.CleanPlain | pkg/format/branch.go:38 | a path of plain segments is already clean |
| Paths.PathJoinPlain | pkg/format/branch.go:38 | joining plain elements is joining the non-empty ones with `/` |
| Paths.CleanFoldsParent | pkg/format/branch.go:38 | `a/../b` cleans to `b` |
| Branch.Capitalize | pkg/format/branch.go:58-60 | the first rune is the upper-case form of the original first rune, so not an ASCII lower-case letter; the rest unchanged |
| Branch.ParseBranch | pkg/format/branch.go:43-63 | no `/` is the zero branch with `Bad branch format`; type and prefix hold no `/`, the description has no `-` and does not start with an ASCII lower-case letter; the panic exactly when there is a `/` and the last of the at most three parts is empty |
| Branch.WithType | pkg/format/branch.go:66-75 | the type is the lower-cased type, rewritten when the map has it; prefix and description kept |
| Branch.BranchStringSafe | pkg/format/branch.go:37-40 | on safe parts, the name is type/prefix/ followed by the lower-cased description with dashes for spaces |
| Branch.BranchStringFullStop | pkg/format/branch.go:37-40 | a final full stop in the description does not reach the name |
| Branch.ParseBranchString | pkg/format/branch.go:37-63 | parsing the name of a branch with safe parts gives the branch back |
| Branch.BranchStringParse | pkg/format/branch.go:37-63 | naming a parsed branch and parsing again gives the same result |
| Branch.BranchStringClean | pkg/format/branch.go:37-40 | every name is clean: no white space or forbidden character, no `.` or `/` at either end |
| Branch.ParseBranchCases | pkg/format/branch.go:43-63 | the error is returned exactly when there is no `/`; otherwise it is a branch or the panic |
| Branch.WithTypeDefaultStable | pkg/format/branch.go:18-23 | rewriting a type already rewritten through the default map changes nothing |
| Branch.StringUserExample | pkg/format/branch_test.go:19-22 | `user/alice/alice-branch` |
| Branch.StringFeatExample | pkg/format/branch_test.go:15-18 | `feat/a-foo-feature`, the full stop dropped |
| Branch.ParseUserExample | pkg/format/branch_test.go:43-47 | `user/alice/alice-branch` parses with its prefix |
| Branch.ParseFeatExample | pkg/format/branch_test.go:38-42 | `feat/a-foo-feature` parses without a prefix |
| Branch.ParseErrorExamples | pkg/format/branch_test.go:48-52 | `BADBEEF` is the format error, and `feat/` is the panic |
| Branch.WithTypeExamples | pkg/format/branch_test.go:74-83 | with an empty and with a matching rewrite map |
| LegacyBranch.AllBranchType | internal/format/branch.go:21-27 | three names, one per type |
| LegacyBranch.BranchTypeFrom | internal/format/branch.go:29-40 | a type exactly for `feat`, `fix` or `user`, named as given; otherwise the error message |
| LegacyBranch.BranchTypeRoundTrip | internal/format/branch.go:17-40 | a type's name reads back as that type |
| LegacyBranch.BranchNameClean | internal/format/branch.go:56-66 | no white space, forbidden character or capital, no `/` at either end |
| LegacyBranch.BranchNameIgnoresUser | internal/format/branch.go:58-60 | only a user branch holds the user name |
| LegacyBranch.SanitizeLegacySpaced | internal/format/branch.go:49-54 | a spaced text is only lower-cased with dashes for its spaces |
| LegacyBranch.BranchNameSpaced | internal/format/branch.go:56-66 | on plain words, the name is type[/user][/description] lower-cased with dashes for spaces |
| LegacyBranch.BranchNameExamples | internal/format/branch_test.go:23-46 | the four cases of the branch name table |
| LegacyBranch.BranchTypeFromExamples | internal/format/branch_test.go:62-81 | the three types and the rejected `nope` |
| LogFilter.ApplyAll | cmd/log-filter.go:14-22 | Pass exactly when every filter passes; otherwise the verdict of a filter all of whose predecessors pass |
| LogFilter.ApplyFilters | cmd/log-filter.go:14-22 | the loop with early return gives ApplyAll |
| LogFilter.ApplyAllConcat | cmd/log-filter.go:14-22 | the second list is consulted only when the first passes |
| LogFilter.PassThruNeutral | cmd/log-filter.go:12 | a PassThru anywhere in the list changes nothing |
| LogFilter.Since | cmd/log-filter.go:24-36 | PassThru without a date; a commit before it gives (false, false), any other (true, true) |
| LogFilter.Until | cmd/log-filter.go:38-50 | PassThru without a date; a commit after it gives (false, true), any other (true, true) |
| LogFilter.BreakingChange | cmd/log-filter.go:52-56 | keep exactly when the breaking flag is as wanted; walk always |
| LogFilter.MarkAll | cmd/log-filter.go:63-66 | the map holds exactly the listed keys, each true |
| LogFilter.Type | cmd/log-filter.go:58-70 | PassThru on no types; otherwise keep exactly the listed types, walk always |
| LogFilter.Scope | cmd/log-filter.go:72-84 | PassThru on no scopes; otherwise keep exactly the listed scopes, walk always |
| LogFilter.SinceUntilWindow | cmd/log-filter.go:24-50 | with both dates a commit is kept exactly inside the window, and only one before it ends the walk |
| LogFilter.SinceStopsFirst | cmd/log-filter.go:29-33 | a commit before `since` ends the walk whatever filters follow |
| ConfigValue.IsListIff | cmd/config.go:90 | the list rule is exactly a `[` prefix and a `]` suffix |
| ConfigValue.ParseInt | cmd/config.go:107-110 | the value of the digits, or a range error above 2^63-1 |
| ConfigValue.ParseFloat | cmd/config.go:117-120 | a number exactly when the separator is a dot; a comma is a syntax error |
| ConfigValue.Pieces | cmd/config.go:92-93 | every trimmed piece is shorter than the list text |
| ConfigValue.ItemsOfValues | cmd/config.go:92-100 | the list parses exactly when every piece does, into their values in order |
| ConfigValue.ItemsOfFirstError | cmd/config.go:93-96 | a failing list returns the error of the first failing piece |
| ConfigValue.ParseValue | cmd/config.go:89-123 | the recursive method with its append loop computes ValueOf |
| ConfigValue.ParseListJoin | cmd/config.go:90-101 | `[` + pieces joined by commas + `]` is the list of the trimmed pieces' values, or the error of one of them |
| ConfigValue.QuotedRoundTrip | cmd/config.go:103-105 | a text in quotes is that text, checked before the number and bool rules |
| ConfigValue.IntRoundTrip | cmd/config.go:107-110 | the decimal text of an int64 parses as that integer |
| ConfigValue.IntOverflow | cmd/config.go:107-110 | a digit run above 2^63-1 is the ParseInt range error |
| ConfigValue.BoolSpelling | cmd/config.go:112-115 | a case-folded `true` or `false` goes to ParseBool |
| ConfigValue.TrueRoundTrip | cmd/config_test.go:16-19 | `true`, `True` and `TRUE` are true |
| ConfigValue.FalseRoundTrip | cmd/config_test.go:20-23 | `false`, `False` and `FALSE` are false |
| ConfigValue.BoolPatternNeverString | cmd/config.go:112-115 | text the bool pattern accepts is a boolean or the ParseBool error, never a string |
| ConfigValue.PlainText | cmd/config.go:122 | text no rule accepts is returned as it is |
| ConfigValue.EmptyBrackets | cmd/config.go:90-101 | `[]` is a list holding one empty string |
| ConfigValue.IntExample | cmd/config_test.go:26-29 | `113` is the integer 113 |
| ConfigValue.DecimalForms | cmd/config.go:117-120 | `a.b` is a float, `a,b` the ParseFloat error |
| ConfigValue.FloatExamples | cmd/config_test.go:32-35 | `113.42` is a float; `1,5` an error |
| ConfigValue.TwoWordList | cmd/config.go:90-101 | `[u, w]` of plain words is the list of the two strings |
| ConfigValue.ListExample | cmd/config_test.go:38-41 | `[foo, bar]` is the list of `foo` and `bar` |
| ConfigValue.QuotedNumberExample | cmd/config.go:103-105 | `'113'` is the string `113` |
| ConfigValue.BoolPrecedenceExamples | cmd/config.go:112 | `trueish` and `notfalse` are ParseBool errors |
| Issue.Builder.WriteString | internal/integrations/issue.go:34-51 | the text grows by the string written |
| Issue.Format | internal/integrations/issue.go:26-54 | the text built on the builder is the formatted text of the issue |
| Issue.FormatJoinsLines | internal/integrations/issue.go:33-51 | the text is short form, description (when any) and provider line separated by blank lines |
| Issue.FormatSplitsIntoLines | internal/integrations/issue.go:26-54 | on single-line fields the text splits back into those lines: three, or five with a description |
| Issue.ShortFormatPrefix | internal/integrations/issue.go:57-59 | the short form opens the text and the provider line ends it |
| Issue.FormatDescription | internal/integrations/issue.go:42-46 | a description adds a blank line and itself after the short form, nothing else |
| Issue.ToBranch | internal/integrations/issue.go:62-64 | prefix is the id, description the name, and the type is lower-cased and rewritten |
| Issue.FormatExample | internal/integrations/issue_test.go:13-17 | the formatted text of the test issue |
| Issue.ShortFormatExample | internal/integrations/issue_test.go:22-26 | `ID-245 - Issue name` |
| Issue.ToBranchExample | internal/integrations/issue_test.go:50-54 | the branch of the test issue |
| BoolDirective.GitConfig.SetBool | pkg/config/bool.go:19 | on a writable configuration the key now holds the boolean and no error is returned; otherwise the write error and nothing changes; every other entry is as before |
| BoolDirective.SetBoolEntries | pkg/config/bool.go:19 | a successful write makes the key hold the boolean, a failed one changes nothing, other keys are untouched |
| BoolDirective.AnyBoolApply | pkg/config/bool.go:14-23 | an error exactly without autofix on a key that is not a boolean, with its message; without an error the key holds a boolean exactly when it held one or the write succeeded; only that key can change |
| BoolDirective.BoolApply | pkg/config/bool.go:31-40 | an error exactly without autofix on a key not holding the expected boolean, with its message; without an error it holds it exactly when it did or the write succeeded; only that key can change |
| BoolDirective.AnyBool.Apply | pkg/config/bool.go:14-23 | the error and the new configuration are those of AnyBoolApply |
| BoolDirective.Bool.Apply | pkg/config/bool.go:31-40 | the error and the new configuration are those of BoolApply |
| BoolDirective.AnyBoolFixThenCheck | pkg/config/bool.go:14-23 | a fix reports no error; the check after it changes nothing and passes exactly when the write succeeded or the key held a boolean |
| BoolDirective.BoolFixThenCheck | pkg/config/bool.go:31-40 | a fix reports no error; the key then holds the expected value exactly when the write succeeded or it held it already, and the check passes exactly then |
| BoolDirective.ApplyIdempotent | pkg/config/bool.go:14-40 | applying a directive twice writes what applying it once does |
| BoolDirective.BoolPassImpliesAnyPass | pkg/config/bool.go:15-32 | a key that passes a BoolDirective passes the AnyBoolDirective |
| BoolDirective.AnyBoolExample | pkg/config/bool_test.go:33-43 | the AnyBoolDirective cases |
| BoolDirective.BoolExample | pkg/config/bool_test.go:45-66 | the BoolDirective cases |
| BoolDirective.AnyBoolTestSequence | pkg/config/bool_test.go:33-43 | the AnyBoolDirective test run on the objects, with its errors and the fixed value |
| BoolDirective.BoolTestSequence | pkg/config/bool_test.go:45-66 | the BoolDirective test run on the objects, with its five errors |
| BoolDirective.AnyBoolIgnoresFailedWrite | pkg/config/bool.go:18-20 | on a failed write the fix still reports success, changes nothing, and the next check fails |
| BoolDirective.BoolIgnoresFailedWrite | pkg/config/bool.go:35-37 | the same for the BoolDirective |
| BoolDirective.AnyBoolApplyChecked | pkg/config/bool.go:14-23 | the corrected directive: success exactly when the key held a boolean or was fixed by a successful write, and then it holds one; a failed fix reports the write error |
| BoolDirective.BoolApplyChecked | pkg/config/bool.go:31-40 | the same for the expected boolean |
| BoolDirective.CheckedAgrees | pkg/config/bool.go:14-40 | the corrected directives write what the code writes, and give the code's result whenever the write succeeds or there is no fix |

## Left out

- Git plumbing is not modelled: the revision walk, `Describe` and its formatting, and HEAD
  resolution. The history is a sequence of (message, formatted describe or none) records in walk
  order. HEAD and the references are fields of a `Repository`.
- `DefaultDescribeFormatOptions` failing, and `dr.Format` failing (a panic), cannot be
  expressed on those records, so they are not modelled.
- libgit2's error texts are stand-ins. A failing HEAD carries an abstract error string, and an
  existing reference gives a message of the model's own.
- Terminal output is not modelled: the printing of "Nothing to do", of the tag and of the dry
  run. The outcome datatypes record which of these would be printed.
- blang/semver pre-release and build metadata are not modelled. `ParseTolerant` is TrimSpace,
  an optional `v`, and one to three dot-separated decimal parts below 2^64; any other text is
  not a version.
- `cmd/tag.go` calls internal/format's `NextBump`, and `ToBranch` builds internal/format's
  `TugBranch`. Those files are not part of this model, so the pkg/format versions stand in.
- Commit.NextBump carries no ensures of its own. Its properties are the NextBump lemmas.
- LegacyBranch.BranchTypeFrom returns `Err` rather than the pair (-1, error).
- `strings.ToLower`/`ToUpper`, `unicode.ToUpper` and `\s` are modelled on ASCII letters and
  white space only.
- `Paths.Clean` and `Paths.CleanSegments` model `path.Clean` on every input. The general lemmas
  about it are stated only for segments without `.`, `..` or `/`. For other paths the lemmas are
  the three examples in `Paths`.
- `Format(true)` (golor colours) is not modelled, and neither is `SelectIssue`, an interactive
  fuzzy finder.
- ConfigValue.ParseFloat: the float's value and the float32 range error are not modelled. A
  float is kept as its text.
- ConfigValue.ParseBool: the error text is `strconv.ParseBool: parsing "<s>": invalid syntax` with
  the input unquoted. `strconv.Quote` escaping of unusual characters is not modelled.
- BoolDirective.GitConfig.SetBool: whether a write fails is the `writable` flag of the
  configuration, not the state of a file system. `WriteFailed` stands in for libgit2's error text.
- The git configuration is a map of entries that are booleans or other text. libgit2's own
  reading of boolean text (`yes`, `on`, ...) is abstracted into that choice.
- Committer dates are integers.
- A nil `co` passed to a log filter is not modelled.
- Concurrency is not modelled; there is none in the core.

## Findings

| source | as written | input that shows it | evidently intended | confidence | as-written member | corrected member |
|---|---|---|---|---|---|---|
| pkg/format/branch.go:12 | `sanitizeBranch` removes `@{` and `..` in one left-to-right pass, so removing `@{` can join two dots into a new `..` (the same holds at internal/format/branch.go:43) | `a.@{.b` becomes `a..b`, a name git's check-ref-format rejects | no `..` and no `@{` in the result, by removing until nothing is left | not executed | Sanitize.SanitizeLeavesDoubleDot | Sanitize.SanitizePkgFixed |
| pkg/config/bool.go:19 | `AnyBoolDirective.Apply` discards the error of `SetBool` and returns nil | a configuration libgit2 cannot write (a read-only file) and a key that is not a boolean, with autofix: the fix reports success, nothing is written, and the next check fails | the write error is returned | not executed | BoolDirective.AnyBoolIgnoresFailedWrite | BoolDirective.AnyBoolApplyChecked |
| pkg/config/bool.go:36 | `BoolDirective.Apply` discards the error of `SetBool` and returns nil | the same configuration and a key not holding the expected boolean, with autofix | the write error is returned | not executed | BoolDirective.BoolIgnoresFailedWrite | BoolDirective.BoolApplyChecked |
| internal/format/commit.go:54 | the body and each footer follow a single line break (also line 58) | the full case of internal/format/commit_test.go:26-29: the code gives two characters fewer than the expected text, which has blank lines before the body and before the footers | a blank line before the body and before the footer block, as in pkg/format/commit.go | not executed | LegacyCommit.FullMessageLacksBlankLines | LegacyCommit.FullMessageIntended |

`Branch` and `LegacyBranch` keep the sanitizers as written, because they model the code.
`Sanitize.SanitizePkgFixedAgrees` and `Sanitize.SanitizeLegacyFixedAgrees` show where the two
differ: only on input where one removal pass leaves a `..` or an `@{`. The branch-name lemmas
about names of plain words therefore hold for the corrected sanitizers as well.

In the same way the directive classes keep the discarded write error, and
`BoolDirective.CheckedAgrees` shows that the corrected directives differ from them only on a
failed write during a fix. `LegacyCommit.CommitMessage` keeps the single line breaks, and
`LegacyCommit.FormatMissesSeparators` states exactly how far its text is from the corrected one.

/**
 * runRelease and tagHead of cmd/release.go (the `release` command), which
 * cmd/git-release/cmd/root.go repeats as the stand-alone git-release: walk the history from
 * HEAD, bump the last release by the largest change since, and create the tag on HEAD.
 */
module Release {
  import opened Wrappers
  import opened Semver
  import opened Commit
  import opened Describe
  import opened Walker
  import opened Bumping
  import opened Repo

  /** The reference name of the tag for a version: "refs/tags/" + prefix + version. */
  function TagName(prefix: string, v: Ver): string {
    "refs/tags/" + prefix + VersionString(v)
  }

  /** The walk runRelease starts: no bump, version 0.0.0. */
  const ReleaseStart: WalkState := WalkState(BumpNone, Some(Zero))

  /** What tagHead does: fail without HEAD, print on a dry run, create the reference otherwise. */
  function TagHeadOutcome(head: Result<Oid>, refs: map<string, Oid>, tagname: string, dry: bool): Outcome {
    match head
    case Err(e) => Failed(e)
    case Ok(h) =>
      if dry then WouldCreate(tagname, Some(h))
      else if tagname in refs then Failed(ReferenceExists(tagname))
      else Created(tagname, h)
  }

  /** tagHead */
  method TagHead(repo: Repository, tagname: string, dry: bool) returns (out: Outcome)
    modifies repo
    ensures out == TagHeadOutcome(old(repo.head), old(repo.refs), tagname, dry)
    ensures repo.head == old(repo.head)
    ensures repo.refs == if out.Created? then old(repo.refs)[tagname := out.target] else old(repo.refs)
  {
    var head := repo.Head();
    if head.Err? {
      return Failed(head.error);
    }
    if dry {
      return WouldCreate(tagname, Some(head.value));
    }
    var err := repo.CreateReference(tagname, head.value);
    if err.Some? {
      return Failed(err.value);
    }
    return Created(tagname, head.value);
  }

  /** The walk of runRelease over a history. */
  function ReleaseWalkOf(history: seq<CommitRecord>): WalkEnd {
    Walk(ReleaseWalk, ReleaseStart, ObserveAll(history))
  }

  /** The version the release walk ends at, 0.0.0 when it met no tag. */
  function LastRelease(history: seq<CommitRecord>): Ver {
    WalkKeepsVersion(ReleaseStart, ObserveAll(history));
    ReleaseWalkOf(history).state.curr.value
  }

  /**
   * What runRelease does on a repository with the given HEAD and references, over the commits
   * the revision walk gives from HEAD.
   */
  function ReleaseOutcome(head: Result<Oid>, refs: map<string, Oid>, history: seq<CommitRecord>,
                          prefix: string, dry: bool): Outcome
  {
    if head.Err? then Failed(head.error)
    else
      var end := ReleaseWalkOf(history);
      if end.panic.Some? then Panicked(end.panic.value)
      else if end.state.bump == BumpNone then NothingToDo
      else TagHeadOutcome(head, refs, TagName(prefix, Bumped(LastRelease(history), end.state.bump)), dry)
  }

  /**
   * runRelease: PushHead fails when HEAD does not resolve; the walk sets the bump and the version
   * through pointers; no bump is nothing to do; otherwise the version is bumped in place and
   * tagHead tags HEAD. The walk and bumpVersion cannot fail here.
   */
  method RunRelease(repo: Repository, history: seq<CommitRecord>, prefix: string, dry: bool)
    returns (out: Outcome)
    modifies repo
    ensures out == ReleaseOutcome(old(repo.head), old(repo.refs), history, prefix, dry)
    ensures repo.head == old(repo.head)
    ensures repo.refs == if out.Created? then old(repo.refs)[out.tag := out.target] else old(repo.refs)
  {
    var pushed := repo.Head();
    if pushed.Err? {
      return Failed(pushed.error);
    }
    var curr := new Version(Zero);
    var walker := new CommitWalker(BumpNone, curr);
    var panic := walker.Iterate(history);
    if panic.Some? {
      return Panicked(panic.value);
    }
    if walker.bump == BumpNone {
      return NothingToDo;
    }
    ghost var last := curr.Value();
    // bumpVersion returns nil on a non-nil version, so its error check never fires.
    var _ := BumpVersion(curr, walker.bump, ReleaseNilError);
    assert curr.Value() == Bumped(last, walker.bump);
    out := TagHead(repo, TagName(prefix, curr.Value()), dry);
  }

  /**
   * Nothing to do exactly when HEAD resolves, the walk does not panic and no commit it
   * classifies calls for a bump; a dry run never creates a reference, and a created reference
   * is new and points at HEAD.
   */
  lemma ReleaseCases(head: Result<Oid>, refs: map<string, Oid>, history: seq<CommitRecord>,
                     prefix: string, dry: bool)
    ensures var os := ObserveAll(history);
      ReleaseOutcome(head, refs, history, prefix, dry) == NothingToDo <==>
      head.Ok? && ReleaseWalkOf(history).panic.None? &&
      MaxSeverity(Messages(os[..FirstHalt(ReleaseWalk, os)])) == BumpNone
    ensures dry ==> !ReleaseOutcome(head, refs, history, prefix, dry).Created?
    ensures ReleaseOutcome(head, refs, history, prefix, dry).Created? ==>
      head == Ok(ReleaseOutcome(head, refs, history, prefix, dry).target) &&
      ReleaseOutcome(head, refs, history, prefix, dry).tag !in refs
  {
    WalkBump(ReleaseWalk, ReleaseStart, ObserveAll(history));
  }

  /**
   * The tag a release creates, or would create on a dry run, names the last release bumped by
   * the largest change since, and that version is greater than the last release.
   */
  lemma ReleaseTagIsNext(head: Result<Oid>, refs: map<string, Oid>, history: seq<CommitRecord>,
                         prefix: string, dry: bool)
    requires NoWrap(LastRelease(history))
    ensures var out := ReleaseOutcome(head, refs, history, prefix, dry);
      out.Created? || out.WouldCreate? ==>
        exists b :: b != BumpNone && out.tag == TagName(prefix, Bumped(LastRelease(history), b)) &&
                    Less(LastRelease(history), Bumped(LastRelease(history), b))
  {
    var out := ReleaseOutcome(head, refs, history, prefix, dry);
    if out.Created? || out.WouldCreate? {
      var b := ReleaseWalkOf(history).state.bump;
      BumpedIncreases(LastRelease(history), b, b);
      assert out.tag == TagName(prefix, Bumped(LastRelease(history), b));
    }
  }

  /**
   * Releasing again right away does nothing: once HEAD carries the tag "v" + version, its
   * describe string is that tag, the walk stops at HEAD and nothing is bumped.
   */
  lemma ReleaseAgainIsNothing(h: Oid, refs: map<string, Oid>, v: Ver, message: string,
                              rest: seq<CommitRecord>, dry: bool)
    ensures ReleaseOutcome(Ok(h), refs, [CommitRecord(message, Some("v" + VersionString(v)))] + rest, "v", dry)
            == NothingToDo
  {
    var history := [CommitRecord(message, Some("v" + VersionString(v)))] + rest;
    ParseTagged(v);
    var os := ObserveAll(history);
    assert os[0].tagging == Described(Some(v), 1);
    assert Kind(ReleaseWalk, os[0].tagging) == Stop;
    StepBump(ReleaseWalk, ReleaseStart, os[0]);
  }
}

/**
 * runTag of cmd/tag.go (the older `tag` command): the same walk as the release commands with a
 * version pointer that the walk replaces, the fixed prefix "v", and a dry run that prints the
 * tag before HEAD is looked at.
 */
module Tag {
  import opened Wrappers
  import opened Semver
  import opened Commit
  import opened Describe
  import opened Walker
  import opened Bumping
  import opened Repo
  import Release

  /** TAG_PREFIX */
  const TagPrefix: string := "v"

  /** The walk runTag starts: no bump, a nil version. */
  const TagStart: WalkState := WalkState(BumpNone, None)

  /** The closure of runTag with the bump and the version pointer it reassigns. */
  class TagWalker {
    var bump: Bump
    var curr: Option<Ver>

    function State(): WalkState
      reads this
    {
      WalkState(bump, curr)
    }

    constructor ()
      ensures State() == TagStart
    {
      bump := BumpNone;
      curr := None;
    }

    /** The closure, called on one commit. */
    method Visit(c: CommitRecord) returns (v: Visit)
      modifies this
      ensures v == Kind(TagWalk, Observe(c))
      ensures State() == Step(TagWalk, old(State()), Observed(c.message, Observe(c)))
    {
      match c.describe
      case None =>
        bump := NextBump(c.message, bump);
        return Continue;
      case Some(d) =>
        var res := ParseDescription(d);
        if res.Err? {
          return Panic(res.error);
        }
        curr := res.value.version;
        if res.value.offset <= 1 {
          return Stop;
        }
        bump := NextBump(c.message, bump);
        return Continue;
    }

    /** Revwalk.Iterate: the closure on each commit of the walk until it returns false or panics. */
    method Iterate(cs: seq<CommitRecord>) returns (panic: Option<string>)
      modifies this
      ensures WalkEnd(State(), panic) == Walk(TagWalk, old(State()), ObserveAll(cs))
    {
      var i := 0;
      while i < |cs|
        invariant 0 <= i <= |cs|
        invariant Walk(TagWalk, old(State()), ObserveAll(cs)) == Walk(TagWalk, State(), ObserveAll(cs)[i..])
      {
        ghost var os := ObserveAll(cs);
        assert os[i..][0] == os[i] && os[i..][1..] == os[i + 1..];
        var v := Visit(cs[i]);
        match v
        case Stop => return None;
        case Panic(reason) => return Some(reason);
        case Continue =>
        i := i + 1;
      }
      assert ObserveAll(cs)[i..] == [];
      return None;
    }
  }

  /** The walk of runTag over a history. */
  function TagWalkOf(history: seq<CommitRecord>): WalkEnd {
    Walk(TagWalk, TagStart, ObserveAll(history))
  }

  /**
   * What runTag does: PushHead fails when HEAD does not resolve; no bump is nothing to do; a
   * nil version becomes 0.0.0 before the bump; a dry run prints the tag, otherwise the reference
   * is created on HEAD unless the name is taken.
   */
  function TagOutcome(head: Result<Oid>, refs: map<string, Oid>, history: seq<CommitRecord>, dry: bool): Outcome {
    if head.Err? then Failed(head.error)
    else
      var end := TagWalkOf(history);
      if end.panic.Some? then Panicked(end.panic.value)
      else if end.state.bump == BumpNone then NothingToDo
      else
        var tagname := Release.TagName(TagPrefix, Bumped(OrZero(end.state.curr), end.state.bump));
        if dry then WouldCreate(tagname, None)
        else if tagname in refs then Failed(ReferenceExists(tagname))
        else Created(tagname, head.value)
  }

  /** runTag */
  method RunTag(repo: Repository, history: seq<CommitRecord>, dry: bool) returns (out: Outcome)
    modifies repo
    ensures out == TagOutcome(old(repo.head), old(repo.refs), history, dry)
    ensures repo.head == old(repo.head)
    ensures repo.refs == if out.Created? then old(repo.refs)[out.tag := out.target] else old(repo.refs)
  {
    var pushed := repo.Head();
    if pushed.Err? {
      return Failed(pushed.error);
    }
    var walker := new TagWalker();
    var panic := walker.Iterate(history);
    if panic.Some? {
      return Panicked(panic.value);
    }
    if walker.bump == BumpNone {
      return NothingToDo;
    }
    var curr := new Version(OrZero(walker.curr));
    // bumpVersion returns nil on a non-nil version, so its error check never fires.
    var _ := BumpVersion(curr, walker.bump, TagNilError);
    var tagname := Release.TagName(TagPrefix, curr.Value());
    if dry {
      return WouldCreate(tagname, None);
    }
    // HEAD is read again and the reference created, as tagHead does without a dry run.
    out := Release.TagHead(repo, tagname, false);
  }

  /**
   * Where every describe is usable (untagged, or a SemVer tag), `tag` and `release` with the
   * prefix "v" do the same, but for the commit id a dry run of `release` prints.
   */
  lemma TagAgreesWithRelease(head: Result<Oid>, refs: map<string, Oid>, history: seq<CommitRecord>, dry: bool)
    requires forall i :: 0 <= i < |history| ==> Usable(Observe(history[i]))
    ensures var t := TagOutcome(head, refs, history, dry);
            var r := Release.ReleaseOutcome(head, refs, history, TagPrefix, dry);
            if dry && t.WouldCreate? then r == WouldCreate(t.tag, Some(head.value)) else t == r
  {
    var os := ObserveAll(history);
    assert forall i :: 0 <= i < |os| ==> Usable(os[i].tagging);
    WalkVariantsAgree(BumpNone, Zero, None, os);
    WalkKeepsVersion(Release.ReleaseStart, os);
  }

  /**
   * A tag that is not SemVer does not make `tag` panic, where `release` panics on it. With an
   * offset above 1 the walk goes on and takes the commits after it as the whole history,
   * starting again from 0.0.0; with offset 1 or less it stops there, as for any tag.
   */
  lemma NonSemverTag(message: string, d: string, rest: seq<CommitRecord>)
    requires ParseDescription(d).Ok? && ParseDescription(d).value.version.None?
    ensures !Kind(TagWalk, Observe(CommitRecord(message, Some(d)))).Panic?
    ensures Release.ReleaseWalkOf([CommitRecord(message, Some(d))] + rest).panic == Some(NilDereference)
    ensures ParseDescription(d).value.offset > 1 ==>
      TagWalkOf([CommitRecord(message, Some(d))] + rest) ==
      Walk(TagWalk, WalkState(NextBump(message, BumpNone), None), ObserveAll(rest))
  {
    var c := CommitRecord(message, Some(d));
    assert ObserveAll([c] + rest)[0] == Observed(message, Observe(c));
    assert forall i :: 0 <= i < |rest| ==> ([c] + rest)[i + 1] == rest[i];
    assert ObserveAll([c] + rest)[1..] == ObserveAll(rest);
  }
}

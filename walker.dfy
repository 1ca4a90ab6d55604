/**
 * The commit walk that finds the next release: the closure commitWalker returns in
 * cmd/walker.go (used by cmd/release.go and cmd/git-release/cmd/root.go) and the closure of
 * runTag in cmd/tag.go. Both visit the commits of the history one by one, classify each
 * message with NextBump, record the version of the last tag they meet, and stop at the first
 * commit that is at most one commit away from its tag.
 */
module Walker {
  import opened Wrappers
  import opened Semver
  import opened Commit
  import opened Describe

  /** A commit of the walk: its message and its formatted `git describe`, None when that fails. */
  datatype CommitRecord = CommitRecord(message: string, describe: Option<string>)

  /** What a visit tells the walk: go on, stop (the closure returns false), or panic. */
  datatype Visit = Continue | Stop | Panic(reason: string)

  /** Which of the two closures walks. */
  datatype Variant =
    | ReleaseWalk  // cmd/walker.go: the version is copied through a pointer that must not be nil
    | TagWalk      // cmd/tag.go: the version pointer is replaced, nil included

  /** The message of Go's runtime panic on a nil pointer dereference. */
  const NilDereference: string := "runtime error: invalid memory address or nil pointer dereference"

  /** The bump found so far and the version of the last tag met (nil for a tag that is not SemVer). */
  datatype WalkState = WalkState(bump: Bump, curr: Option<Ver>)

  /** What parseDescription makes of a commit's describe string. */
  datatype Tagging =
    | NoDescription                                  // Describe failed: the commit is not tagged
    | DescribeError(error: string)                   // the error of parseDescription
    | Described(version: Option<Ver>, offset: int)   // the version (nil when not SemVer) and offset

  function Observe(c: CommitRecord): (t: Tagging)
    ensures t.NoDescription? <==> c.describe.None?
    ensures t.DescribeError? ==> ParseDescription(c.describe.value) == Err(t.error)
    ensures t.Described? ==> ParseDescription(c.describe.value) == Ok(Description(t.version, t.offset))
  {
    match c.describe
    case None => NoDescription
    case Some(d) =>
      match ParseDescription(d)
      case Err(e) => DescribeError(e)
      case Ok(desc) => Described(desc.version, desc.offset)
  }

  /** A commit as the walk sees it: its message and its tagging. */
  datatype Observed = Observed(message: string, tagging: Tagging)

  function ObserveAll(cs: seq<CommitRecord>): (r: seq<Observed>)
    ensures |r| == |cs|
    ensures forall i :: 0 <= i < |cs| ==> r[i] == Observed(cs[i].message, Observe(cs[i]))
  {
    if cs == [] then [] else [Observed(cs[0].message, Observe(cs[0]))] + ObserveAll(cs[1..])
  }

  /**
   * What visiting a commit tells the walk; it depends on the commit only. An untagged commit
   * goes on. The release walker copies `*v` before looking at the error, so an Atoi error or a
   * tag that is not SemVer dereferences nil; the tag walker panics on the Atoi error only.
   */
  function Kind(variant: Variant, t: Tagging): Visit {
    match t
    case NoDescription => Continue
    case DescribeError(e) => Panic(if variant == ReleaseWalk then NilDereference else e)
    case Described(version, offset) =>
      if variant == ReleaseWalk && version.None? then Panic(NilDereference)
      else if offset <= 1 then Stop
      else Continue
  }

  /** The state after visiting a commit; a panic leaves it as it was. */
  function Step(variant: Variant, st: WalkState, o: Observed): WalkState {
    match o.tagging
    case NoDescription => st.(bump := NextBump(o.message, st.bump))
    case DescribeError(_) => st
    case Described(version, offset) =>
      if variant == ReleaseWalk && version.None? then st
      else if offset <= 1 then st.(curr := version)
      else WalkState(NextBump(o.message, st.bump), version)
  }

  /** How a walk ends: the state, and the panic if there was one. */
  datatype WalkEnd = WalkEnd(state: WalkState, panic: Option<string>)

  /** Revwalk.Iterate with the closure: visit until the closure returns false or panics. */
  function Walk(variant: Variant, st: WalkState, cs: seq<Observed>): WalkEnd
    decreases |cs|
  {
    if cs == [] then WalkEnd(st, None)
    else
      var next := Step(variant, st, cs[0]);
      match Kind(variant, cs[0].tagging)
      case Continue => Walk(variant, next, cs[1..])
      case Stop => WalkEnd(next, None)
      case Panic(reason) => WalkEnd(next, Some(reason))
  }

  /** The position of the first commit at which the walk stops or panics; |cs| if there is none. */
  function FirstHalt(variant: Variant, cs: seq<Observed>): (k: nat)
    ensures k <= |cs|
    ensures forall j :: 0 <= j < k ==> Kind(variant, cs[j].tagging).Continue?
    ensures k < |cs| ==> !Kind(variant, cs[k].tagging).Continue?
  {
    if cs == [] || !Kind(variant, cs[0].tagging).Continue? then 0
    else 1 + FirstHalt(variant, cs[1..])
  }

  /** The messages of some commits. */
  function Messages(cs: seq<Observed>): (r: seq<string>)
    ensures |r| == |cs| && forall i :: 0 <= i < |cs| ==> r[i] == cs[i].message
  {
    if cs == [] then [] else [cs[0].message] + Messages(cs[1..])
  }

  /** The largest bump any of the messages calls for. */
  function MaxSeverity(msgs: seq<string>): Bump {
    if msgs == [] then BumpNone else MaxBump(Severity(msgs[0]), MaxSeverity(msgs[1..]))
  }

  lemma MaxBumpAssoc(a: Bump, b: Bump, c: Bump)
    ensures MaxBump(MaxBump(a, b), c) == MaxBump(a, MaxBump(b, c))
  {
  }

  /** One visit: a commit that lets the walk go on raises the bump to its severity, others keep it. */
  lemma StepBump(variant: Variant, st: WalkState, o: Observed)
    ensures Kind(variant, o.tagging).Continue? ==>
            Step(variant, st, o).bump == MaxBump(st.bump, Severity(o.message))
    ensures !Kind(variant, o.tagging).Continue? ==> Step(variant, st, o).bump == st.bump
  {
    StepBumpCall(variant, st, o);
    NextBumpIsMax(o.message, st.bump);
  }

  lemma StepBumpCall(variant: Variant, st: WalkState, o: Observed)
    ensures Kind(variant, o.tagging).Continue? ==> Step(variant, st, o).bump == NextBump(o.message, st.bump)
    ensures !Kind(variant, o.tagging).Continue? ==> Step(variant, st, o).bump == st.bump
  {
  }

  /**
   * The bump a walk ends with is the largest of the bump it started from and the severities of
   * the messages of the commits before the first halt: the walk classifies exactly those, in
   * any order the result is the same, and it never lowers the bump.
   */
  lemma {:induction false} WalkBump(variant: Variant, st: WalkState, cs: seq<Observed>)
    ensures Walk(variant, st, cs).state.bump ==
            MaxBump(st.bump, MaxSeverity(Messages(cs[..FirstHalt(variant, cs)])))
    ensures Rank(Walk(variant, st, cs).state.bump) >= Rank(st.bump)
    decreases |cs|
  {
    var k := FirstHalt(variant, cs);
    if cs == [] {
    } else if !Kind(variant, cs[0].tagging).Continue? {
      assert cs[..k] == [];
      StepBump(variant, st, cs[0]);
    } else {
      var c := cs[0];
      var next := Step(variant, st, c);
      WalkBump(variant, next, cs[1..]);
      StepBump(variant, st, c);
      var rest := Messages(cs[1..][..k - 1]);
      assert cs[..k][1..] == cs[1..][..k - 1];
      assert Messages(cs[..k]) == [c.message] + rest;
      MaxBumpAssoc(st.bump, Severity(c.message), MaxSeverity(rest));
    }
  }

  /** The walk panics exactly when the commit it halts at is one it panics at. */
  lemma {:induction false} WalkPanics(variant: Variant, st: WalkState, cs: seq<Observed>)
    ensures Walk(variant, st, cs).panic.Some? <==>
            FirstHalt(variant, cs) < |cs| && Kind(variant, cs[FirstHalt(variant, cs)].tagging).Panic?
    decreases |cs|
  {
    if cs != [] && Kind(variant, cs[0].tagging).Continue? {
      WalkPanics(variant, Step(variant, st, cs[0]), cs[1..]);
      if FirstHalt(variant, cs[1..]) < |cs| - 1 {
        assert cs[1..][FirstHalt(variant, cs[1..])] == cs[FirstHalt(variant, cs)];
      }
    }
  }

  /** Nothing after the commit the walk halts at is visited. */
  lemma {:induction false} WalkIgnoresRest(variant: Variant, st: WalkState, cs: seq<Observed>, n: nat)
    requires FirstHalt(variant, cs) < n <= |cs|
    ensures Walk(variant, st, cs) == Walk(variant, st, cs[..n])
    decreases |cs|
  {
    var c := cs[0];
    assert cs[..n][0] == c;
    if Kind(variant, c.tagging).Continue? {
      var next := Step(variant, st, c);
      WalkIgnoresRest(variant, next, cs[1..], n - 1);
      assert cs[..n][1..] == cs[1..][..n - 1];
    }
  }

  /** The release walker starts from a version and only ever copies versions into it. */
  lemma {:induction false} WalkKeepsVersion(st: WalkState, cs: seq<Observed>)
    requires st.curr.Some?
    ensures Walk(ReleaseWalk, st, cs).state.curr.Some?
    decreases |cs|
  {
    if cs != [] && Kind(ReleaseWalk, cs[0].tagging).Continue? {
      WalkKeepsVersion(Step(ReleaseWalk, st, cs[0]), cs[1..]);
    }
  }

  /** The version a nil pointer stands for once cmd/tag.go replaces it by `semver.Version{}`. */
  function OrZero(v: Option<Ver>): Ver {
    if v.Some? then v.value else Zero
  }

  /** A commit whose describe the walkers can use: none, or a SemVer tag. */
  predicate Usable(t: Tagging) {
    t.NoDescription? || (t.Described? && t.version.Some?)
  }

  /**
   * On a history where every describe is usable the two walkers agree: the same bump, no panic,
   * and the version of the release walker is that of the tag walker, 0.0.0 standing for nil.
   */
  lemma {:induction false} WalkVariantsAgree(bump: Bump, rc: Ver, tc: Option<Ver>, cs: seq<Observed>)
    requires rc == OrZero(tc)
    requires forall i :: 0 <= i < |cs| ==> Usable(cs[i].tagging)
    ensures var r := Walk(ReleaseWalk, WalkState(bump, Some(rc)), cs);
            var t := Walk(TagWalk, WalkState(bump, tc), cs);
            r.panic == None && t.panic == None && r.state.bump == t.state.bump &&
            r.state.curr == Some(OrZero(t.state.curr))
    decreases |cs|
  {
    if cs != [] {
      var o := cs[0];
      assert Usable(o.tagging);
      var r := Step(ReleaseWalk, WalkState(bump, Some(rc)), o);
      var t := Step(TagWalk, WalkState(bump, tc), o);
      assert r.bump == t.bump && r.curr == Some(OrZero(t.curr));
      assert Kind(ReleaseWalk, o.tagging) == Kind(TagWalk, o.tagging);
      if Kind(TagWalk, o.tagging).Continue? {
        assert forall i :: 0 <= i < |cs[1..]| ==> cs[1..][i] == cs[i + 1];
        WalkVariantsAgree(r.bump, r.curr.value, t.curr, cs[1..]);
      }
    }
  }

  /**
   * When a commit stops or panics the walk: the release walker panics on every describe it
   * cannot use, the tag walker on the Atoi error only, and both stop at a tag at most one
   * commit behind.
   */
  lemma KindCases(t: Tagging)
    ensures Kind(ReleaseWalk, t).Panic? <==> t.DescribeError? || (t.Described? && t.version.None?)
    ensures Kind(TagWalk, t).Panic? <==> t.DescribeError?
    ensures Kind(TagWalk, t).Stop? <==> t.Described? && t.offset <= 1
    ensures Kind(ReleaseWalk, t).Stop? <==> t.Described? && t.version.Some? && t.offset <= 1
  {
  }

  /** The closure of cmd/walker.go with the bump and the version it writes through its pointers. */
  class CommitWalker {
    var bump: Bump
    const curr: Version

    function State(): WalkState
      reads this, curr
    {
      WalkState(bump, Some(curr.Value()))
    }

    constructor (bump: Bump, curr: Version)
      ensures this.bump == bump && this.curr == curr
    {
      this.bump := bump;
      this.curr := curr;
    }

    /** The closure, called on one commit. */
    method Visit(c: CommitRecord) returns (v: Visit)
      modifies this, curr
      ensures v == Kind(ReleaseWalk, Observe(c))
      ensures State() == Step(ReleaseWalk, old(State()), Observed(c.message, Observe(c)))
    {
      match c.describe
      case None =>
        bump := NextBump(c.message, bump);
        return Continue;
      case Some(d) =>
        var res := ParseDescription(d);
        if res.Err? || res.value.version.None? {
          return Panic(NilDereference);
        }
        curr.Assign(res.value.version.value);
        if res.value.offset <= 1 {
          return Stop;
        }
        bump := NextBump(c.message, bump);
        return Continue;
    }

    /** Revwalk.Iterate: the closure on each commit of the walk until it returns false or panics. */
    method Iterate(cs: seq<CommitRecord>) returns (panic: Option<string>)
      modifies this, curr
      ensures WalkEnd(State(), panic) == Walk(ReleaseWalk, old(State()), ObserveAll(cs))
    {
      var i := 0;
      while i < |cs|
        invariant 0 <= i <= |cs|
        invariant Walk(ReleaseWalk, old(State()), ObserveAll(cs)) == Walk(ReleaseWalk, State(), ObserveAll(cs)[i..])
      {
        ghost var os := ObserveAll(cs);
        assert os[i..][0] == os[i] && os[i..][1..] == os[i + 1..];
        var v := Visit(cs[i]);
        match v
        case Stop => return None;
        case Panic(reason) => return Some(reason);
        case Continue =>
        i := i + 1;
      }
      assert ObserveAll(cs)[i..] == [];
      return None;
    }
  }
}

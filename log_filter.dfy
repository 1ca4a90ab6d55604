/**
 * The commit filters of cmd/log-filter.go. A filter looks at a commit (its committer date and
 * its parsed message) and answers whether to keep the commit and whether to go on walking.
 * ApplyFilters runs a list of filters in order and stops at the first one that drops the
 * commit or ends the walk. The Go closures are represented by a datatype of the filters the
 * constructors build, with Verdict giving what each closure returns.
 */
module LogFilter {
  import opened Wrappers
  import opened Commit

  /** The (keep, walk) pair a filter returns. */
  datatype Verdict = Verdict(keep: bool, walk: bool)

  /** Keep the commit and go on walking. */
  const Pass: Verdict := Verdict(true, true)

  /**
   * A filter: PassThru, or one closure of Since, Until, BreakingChange, Type or Scope with the
   * values it captured. A date is an integer count of time units, compared as instants.
   */
  datatype Filter =
    | PassThru
    | SinceFilter(since: int)
    | UntilFilter(until: int)
    | BreakingFilter(wanted: bool)
    | TypeFilter(mt: map<CommitType, bool>)
    | ScopeFilter(ms: map<string, bool>)

  /** A Go map read: the stored value, or false for a missing key. */
  function Lookup<K>(m: map<K, bool>, k: K): bool {
    if k in m then m[k] else false
  }

  /** Calling a filter on a commit with committer date `when` and message `co`. */
  function Apply(f: Filter, when: int, co: CommitMsg): Verdict {
    match f
    case PassThru => Pass
    case SinceFilter(since) => if when < since then Verdict(false, false) else Pass
    case UntilFilter(until) => if when > until then Verdict(false, true) else Pass
    case BreakingFilter(wanted) => Verdict(co.breakingChanges == wanted, true)
    case TypeFilter(mt) => Verdict(Lookup(mt, co.ctype), true)
    case ScopeFilter(ms) => Verdict(Lookup(ms, co.scope), true)
  }

  /**
   * The filters applied in order: the verdict of the first one that does not pass, or Pass when
   * every one passes.
   */
  function ApplyAll(fs: seq<Filter>, when: int, co: CommitMsg): (r: Verdict)
    ensures r == Pass <==> forall i :: 0 <= i < |fs| ==> Apply(fs[i], when, co) == Pass
    ensures r != Pass ==>
      exists k :: 0 <= k < |fs| && r == Apply(fs[k], when, co) &&
        forall j :: 0 <= j < k ==> Apply(fs[j], when, co) == Pass
  {
    if fs == [] then Pass
    else
      var v := Apply(fs[0], when, co);
      if !v.walk || !v.keep then v
      else
        var r := ApplyAll(fs[1..], when, co);
        assert forall i :: 1 <= i < |fs| ==> fs[i] == fs[1..][i - 1];
        if r != Pass then
          var k :| 0 <= k < |fs| - 1 && r == Apply(fs[1..][k], when, co) &&
            forall j :: 0 <= j < k ==> Apply(fs[1..][j], when, co) == Pass;
          assert forall j :: 0 <= j < k + 1 ==> Apply(fs[j], when, co) == Pass by {
            forall j | 0 <= j < k + 1 ensures Apply(fs[j], when, co) == Pass {
              if j > 0 { assert fs[j] == fs[1..][j - 1]; }
            }
          }
          assert r == Apply(fs[k + 1], when, co);
          r
        else r
  }

  /** ApplyFilters: the loop that returns the verdict of the first filter that drops or stops. */
  method ApplyFilters(when: int, co: CommitMsg, filters: seq<Filter>) returns (v: Verdict)
    ensures v == ApplyAll(filters, when, co)
  {
    var i := 0;
    while i < |filters|
      invariant 0 <= i <= |filters|
      invariant ApplyAll(filters, when, co) == ApplyAll(filters[i..], when, co)
    {
      assert filters[i..][0] == filters[i] && filters[i..][1..] == filters[i + 1..];
      v := Apply(filters[i], when, co);
      if !v.walk || !v.keep {
        return;
      }
      i := i + 1;
    }
    assert filters[i..] == [];
    return Pass;
  }

  /**
   * Running two lists one after the other: the second list is consulted only when every filter
   * of the first passes.
   */
  lemma {:induction false} ApplyAllConcat(fs: seq<Filter>, gs: seq<Filter>, when: int, co: CommitMsg)
    ensures ApplyAll(fs + gs, when, co) ==
      if ApplyAll(fs, when, co) == Pass then ApplyAll(gs, when, co) else ApplyAll(fs, when, co)
  {
    if fs != [] {
      assert (fs + gs)[0] == fs[0] && (fs + gs)[1..] == fs[1..] + gs;
      ApplyAllConcat(fs[1..], gs, when, co);
    } else {
      assert fs + gs == gs;
    }
  }

  /** A PassThru anywhere in the list changes nothing. */
  lemma PassThruNeutral(fs: seq<Filter>, gs: seq<Filter>, when: int, co: CommitMsg)
    ensures ApplyAll(fs + [PassThru] + gs, when, co) == ApplyAll(fs + gs, when, co)
  {
    ApplyAllConcat(fs + [PassThru], gs, when, co);
    ApplyAllConcat(fs, [PassThru], when, co);
    ApplyAllConcat(fs, gs, when, co);
  }

  /** Since: PassThru without a date; otherwise a commit older than the date ends the walk. */
  function Since(since: Option<int>): (f: Filter)
    ensures since.None? ==> f == PassThru
    ensures forall when, co :: Apply(f, when, co) ==
              (if since.Some? && when < since.value then Verdict(false, false) else Pass)
  {
    if since.None? then PassThru else SinceFilter(since.value)
  }

  /** Until: PassThru without a date; otherwise a commit newer than the date is skipped. */
  function Until(until: Option<int>): (f: Filter)
    ensures until.None? ==> f == PassThru
    ensures forall when, co :: Apply(f, when, co) ==
              (if until.Some? && when > until.value then Verdict(false, true) else Pass)
  {
    if until.None? then PassThru else UntilFilter(until.value)
  }

  /** BreakingChange: keeps the commits whose breaking flag is `wanted`, and never ends the walk. */
  function BreakingChange(wanted: bool): (f: Filter)
    ensures forall when, co :: Apply(f, when, co) == Verdict(co.breakingChanges == wanted, true)
  {
    BreakingFilter(wanted)
  }

  /** The set of keys as a Go map of true values, filled one key at a time. */
  method MarkAll<K>(keys: seq<K>) returns (m: map<K, bool>)
    ensures forall k :: k in m <==> k in keys
    ensures forall k :: k in m ==> m[k]
  {
    m := map[];
    var i := 0;
    while i < |keys|
      invariant 0 <= i <= |keys|
      invariant forall k :: k in m <==> k in keys[..i]
      invariant forall k :: k in m ==> m[k]
    {
      assert keys[..i + 1] == keys[..i] + [keys[i]];
      m := m[keys[i] := true];
      i := i + 1;
    }
    assert keys[..i] == keys;
  }

  /** Type: PassThru on an empty list; otherwise keeps the commits of one of the types. */
  method Type(types: seq<CommitType>) returns (f: Filter)
    ensures |types| == 0 ==> f == PassThru
    ensures forall when, co :: Apply(f, when, co) == Verdict(|types| == 0 || co.ctype in types, true)
  {
    if |types| <= 0 {
      return PassThru;
    }
    var mt := MarkAll(types);
    return TypeFilter(mt);
  }

  /** Scope: PassThru on an empty list; otherwise keeps the commits of one of the scopes. */
  method Scope(scopes: seq<string>) returns (f: Filter)
    ensures |scopes| == 0 ==> f == PassThru
    ensures forall when, co :: Apply(f, when, co) == Verdict(|scopes| == 0 || co.scope in scopes, true)
  {
    if |scopes| <= 0 {
      return PassThru;
    }
    var ms := MarkAll(scopes);
    return ScopeFilter(ms);
  }

  /**
   * A date window: with both bounds, a commit is kept exactly when it lies between them, and
   * only a commit older than the lower bound ends the walk.
   */
  lemma SinceUntilWindow(since: int, until: int, when: int, co: CommitMsg)
    ensures var v := ApplyAll([Since(Some(since)), Until(Some(until))], when, co);
      (v.keep <==> since <= when <= until) && (v.walk <==> since <= when)
  {
    var fs := [Since(Some(since)), Until(Some(until))];
    assert fs[1..] == [Until(Some(until))] && fs[1..][1..] == [];
  }

  /** A commit older than `since` ends the walk whatever filters follow the Since filter. */
  lemma SinceStopsFirst(since: int, gs: seq<Filter>, when: int, co: CommitMsg)
    requires when < since
    ensures ApplyAll([Since(Some(since))] + gs, when, co) == Verdict(false, false)
  {
    ApplyAllConcat([Since(Some(since))], gs, when, co);
    assert [Since(Some(since))][1..] == [];
  }
}

/**
 * The boolean directives of pkg/config/bool.go: checks of one key of a git configuration that
 * either report the key or, with autofix, rewrite it.
 */
module BoolDirective {
  import opened Wrappers

  /** A configuration entry: a boolean, or text that does not read as one. */
  datatype Entry = BoolEntry(b: bool) | TextEntry(text: string)

  /** Config.LookupBool, on the entries of a configuration. */
  function LookupBool(entries: map<string, Entry>, key: string): Option<bool> {
    if key in entries && entries[key].BoolEntry? then Some(entries[key].b) else None
  }

  /** The error a configuration that cannot be written returns from a write. */
  const WriteFailed: string := "failed to write the configuration"

  /**
   * A git configuration, shared by the directives that check it. Whether libgit2 can write it
   * back (the file is writable, its lock can be taken) is the flag `writable`.
   */
  class GitConfig {
    var entries: map<string, Entry>
    const writable: bool

    constructor (entries: map<string, Entry>, writable: bool)
      ensures this.entries == entries && this.writable == writable
    {
      this.entries := entries;
      this.writable := writable;
    }

    /** Config.SetBool: sets the key when the configuration can be written, else an error. */
    method SetBool(key: string, value: bool) returns (err: Option<string>)
      modifies this
      ensures err == if writable then None else Some(WriteFailed)
      ensures entries == SetBoolEntries(old(entries), key, value, writable)
    {
      if writable {
        entries := entries[key := BoolEntry(value)];
        return None;
      }
      return Some(WriteFailed);
    }
  }

  /** The entries after Config.SetBool: the key set to the boolean, or nothing on a failed write. */
  function SetBoolEntries(entries: map<string, Entry>, key: string, value: bool, writable: bool): (r: map<string, Entry>)
    ensures writable ==> LookupBool(r, key) == Some(value)
    ensures !writable ==> r == entries
    ensures SameElsewhere(entries, r, key)
  {
    if writable then entries[key := BoolEntry(value)] else entries
  }

  /** The entries after a directive and the error it returned. */
  datatype Applied = Applied(entries: map<string, Entry>, err: Option<string>)

  /** Two configurations that agree on every key but `key`. */
  ghost predicate SameElsewhere(a: map<string, Entry>, b: map<string, Entry>, key: string) {
    forall k :: k != key ==> (k in a <==> k in b) && (k in a ==> a[k] == b[k])
  }

  /**
   * AnyBoolDirective.Apply: nothing to do when the key holds a boolean; otherwise autofix sets
   * it to false, ignoring the error of the write, and without autofix the key is reported.
   */
  function AnyBoolApply(entries: map<string, Entry>, key: string, autofix: bool, writable: bool): (r: Applied)
    ensures r.err.Some? <==> !autofix && LookupBool(entries, key).None?
    ensures r.err.Some? ==> r.err.value == key + " is not a boolean"
    ensures r.err.None? ==> (LookupBool(r.entries, key).Some? <==> LookupBool(entries, key).Some? || writable)
    ensures LookupBool(entries, key).Some? || !autofix || !writable ==> r.entries == entries
    ensures SameElsewhere(entries, r.entries, key)
  {
    if LookupBool(entries, key).Some? then Applied(entries, None)
    else if autofix then Applied(SetBoolEntries(entries, key, false, writable), None)
    else Applied(entries, Some(key + " is not a boolean"))
  }

  /** The text fmt prints for a bool. */
  function BoolText(b: bool): string {
    if b then "true" else "false"
  }

  /**
   * BoolDirective.Apply: nothing to do when the key holds the expected boolean; otherwise
   * autofix sets it, ignoring the error of the write, and without autofix the key is reported.
   */
  function BoolApply(entries: map<string, Entry>, key: string, expected: bool, autofix: bool, writable: bool): (r: Applied)
    ensures r.err.Some? <==> !autofix && LookupBool(entries, key) != Some(expected)
    ensures r.err.Some? ==> r.err.value == key + " is not a boolean equal to " + BoolText(expected)
    ensures r.err.None? ==>
      (LookupBool(r.entries, key) == Some(expected) <==> LookupBool(entries, key) == Some(expected) || writable)
    ensures LookupBool(entries, key) == Some(expected) || !autofix || !writable ==> r.entries == entries
    ensures SameElsewhere(entries, r.entries, key)
  {
    if LookupBool(entries, key) == Some(expected) then Applied(entries, None)
    else if autofix then Applied(SetBoolEntries(entries, key, expected, writable), None)
    else Applied(entries, Some(key + " is not a boolean equal to " + BoolText(expected)))
  }

  /** AnyBoolDirective: a key and the configuration it checks. */
  class AnyBool {
    const key: string
    const config: GitConfig

    constructor (key: string, config: GitConfig)
      ensures this.key == key && this.config == config
    {
      this.key := key;
      this.config := config;
    }

    /** Apply */
    method Apply(autofix: bool) returns (err: Option<string>)
      modifies config
      ensures Applied(config.entries, err) == AnyBoolApply(old(config.entries), key, autofix, config.writable)
    {
      if LookupBool(config.entries, key).Some? {
        return None;
      }
      if autofix {
        var ignored := config.SetBool(key, false);
        return None;
      }
      return Some(key + " is not a boolean");
    }
  }

  /** BoolDirective: a key, the boolean it should hold and the configuration it checks. */
  class Bool {
    const key: string
    const expected: bool
    const config: GitConfig

    constructor (key: string, expected: bool, config: GitConfig)
      ensures this.key == key && this.expected == expected && this.config == config
    {
      this.key := key;
      this.expected := expected;
      this.config := config;
    }

    /** Apply */
    method Apply(autofix: bool) returns (err: Option<string>)
      modifies config
      ensures Applied(config.entries, err) == BoolApply(old(config.entries), key, expected, autofix, config.writable)
    {
      var v := LookupBool(config.entries, key);
      if v.Some? && v.value == expected {
        return None;
      }
      if autofix {
        var ignored := config.SetBool(key, expected);
        return None;
      }
      return Some(key + " is not a boolean equal to " + BoolText(expected));
    }
  }

  // ---------------------------------------------------------------------------
  // Properties.

  /**
   * A fix reports no error, and checking again passes exactly when the write went through or
   * there was nothing to fix; the second check changes nothing.
   */
  lemma AnyBoolFixThenCheck(entries: map<string, Entry>, key: string, writable: bool)
    ensures var fixed := AnyBoolApply(entries, key, true, writable);
      var again := AnyBoolApply(fixed.entries, key, false, writable);
      fixed.err == None && again.entries == fixed.entries &&
      (again.err == None <==> writable || LookupBool(entries, key).Some?)
  {
  }

  /**
   * A fix reports no error, and the key then holds the expected boolean exactly when the write
   * went through or it held it already; checking again passes in just that case.
   */
  lemma BoolFixThenCheck(entries: map<string, Entry>, key: string, expected: bool, writable: bool)
    ensures var fixed := BoolApply(entries, key, expected, true, writable);
      var again := BoolApply(fixed.entries, key, expected, false, writable);
      fixed.err == None && again.entries == fixed.entries &&
      (LookupBool(fixed.entries, key) == Some(expected) <==> writable || LookupBool(entries, key) == Some(expected)) &&
      (again.err == None <==> LookupBool(fixed.entries, key) == Some(expected))
  {
  }

  /** Applying a directive twice does what applying it once does. */
  lemma ApplyIdempotent(entries: map<string, Entry>, key: string, expected: bool, autofix: bool, writable: bool)
    ensures var once := BoolApply(entries, key, expected, autofix, writable);
      BoolApply(once.entries, key, expected, autofix, writable).entries == once.entries
    ensures var once := AnyBoolApply(entries, key, autofix, writable);
      AnyBoolApply(once.entries, key, autofix, writable).entries == once.entries
  {
  }

  /** A key that passes a BoolDirective passes the AnyBoolDirective on the same key. */
  lemma BoolPassImpliesAnyPass(entries: map<string, Entry>, key: string, expected: bool, writable: bool)
    requires BoolApply(entries, key, expected, false, writable).err == None
    ensures AnyBoolApply(entries, key, false, writable).err == None
  {
  }

  // ---------------------------------------------------------------------------
  // The discarded error of SetBool. Apply returns nil after a write that failed, so a fix can
  // report success while the key still fails the check. The corrected directives return the
  // write's error instead.

  /** As written: on a configuration that cannot be written, autofix succeeds and fixes nothing. */
  lemma AnyBoolIgnoresFailedWrite(entries: map<string, Entry>, key: string)
    requires LookupBool(entries, key).None?
    ensures var fixed := AnyBoolApply(entries, key, true, false);
      fixed.err == None && fixed.entries == entries &&
      AnyBoolApply(fixed.entries, key, false, false).err == Some(key + " is not a boolean")
  {
  }

  /** As written, for BoolDirective: autofix succeeds and the key holds what it held before. */
  lemma BoolIgnoresFailedWrite(entries: map<string, Entry>, key: string, expected: bool)
    requires LookupBool(entries, key) != Some(expected)
    ensures var fixed := BoolApply(entries, key, expected, true, false);
      fixed.err == None && fixed.entries == entries &&
      BoolApply(fixed.entries, key, expected, false, false).err ==
        Some(key + " is not a boolean equal to " + BoolText(expected))
  {
  }

  /** AnyBoolDirective.Apply returning the error of SetBool. */
  function AnyBoolApplyChecked(entries: map<string, Entry>, key: string, autofix: bool, writable: bool): (r: Applied)
    ensures r.err.None? ==> LookupBool(r.entries, key).Some?
    ensures r.err.None? <==> LookupBool(entries, key).Some? || (autofix && writable)
    ensures r.err.Some? && autofix ==> r.err.value == WriteFailed
    ensures r.err.Some? && !autofix ==> r.err.value == key + " is not a boolean"
    ensures SameElsewhere(entries, r.entries, key)
  {
    if LookupBool(entries, key).Some? then Applied(entries, None)
    else if autofix then
      Applied(SetBoolEntries(entries, key, false, writable), if writable then None else Some(WriteFailed))
    else Applied(entries, Some(key + " is not a boolean"))
  }

  /** BoolDirective.Apply returning the error of SetBool. */
  function BoolApplyChecked(entries: map<string, Entry>, key: string, expected: bool, autofix: bool, writable: bool): (r: Applied)
    ensures r.err.None? ==> LookupBool(r.entries, key) == Some(expected)
    ensures r.err.None? <==> LookupBool(entries, key) == Some(expected) || (autofix && writable)
    ensures r.err.Some? && autofix ==> r.err.value == WriteFailed
    ensures r.err.Some? && !autofix ==> r.err.value == key + " is not a boolean equal to " + BoolText(expected)
    ensures SameElsewhere(entries, r.entries, key)
  {
    if LookupBool(entries, key) == Some(expected) then Applied(entries, None)
    else if autofix then
      Applied(SetBoolEntries(entries, key, expected, writable), if writable then None else Some(WriteFailed))
    else Applied(entries, Some(key + " is not a boolean equal to " + BoolText(expected)))
  }

  /** The corrected directives differ from the code only in the error of a failed write. */
  lemma CheckedAgrees(entries: map<string, Entry>, key: string, expected: bool, autofix: bool, writable: bool)
    ensures AnyBoolApplyChecked(entries, key, autofix, writable).entries == AnyBoolApply(entries, key, autofix, writable).entries
    ensures BoolApplyChecked(entries, key, expected, autofix, writable).entries ==
      BoolApply(entries, key, expected, autofix, writable).entries
    ensures writable || !autofix ==>
      AnyBoolApplyChecked(entries, key, autofix, writable) == AnyBoolApply(entries, key, autofix, writable) &&
      BoolApplyChecked(entries, key, expected, autofix, writable) == BoolApply(entries, key, expected, autofix, writable)
  {
  }

  // ---------------------------------------------------------------------------
  // The sequences of pkg/config/bool_test.go, on a configuration holding key.bool = true.

  const Start: map<string, Entry> := map["key.bool" := BoolEntry(true)]

  /** The one key the configuration of the test cases starts with. */
  lemma StartKeys()
    ensures "no.key" !in Start && LookupBool(Start, "key.bool") == Some(true)
  {
    assert "no.key" != "key.bool";
  }

  /** The messages of the test cases, assembled. */
  lemma AnyMessage()
    ensures "no.key" + " is not a boolean" == "no.key is not a boolean"
  {
  }

  lemma FalseMessage()
    ensures "key.bool" + " is not a boolean equal to " + BoolText(false) == "key.bool is not a boolean equal to false"
  {
  }

  lemma TrueMessage()
    ensures "no.key" + " is not a boolean equal to " + BoolText(true) == "no.key is not a boolean equal to true"
  {
  }

  lemma AnyBoolExample()
    ensures AnyBoolApply(Start, "key.bool", false, true) == Applied(Start, None)
    ensures AnyBoolApply(Start, "no.key", false, true) == Applied(Start, Some("no.key is not a boolean"))
    ensures var fixed := AnyBoolApply(Start, "no.key", true, true);
      fixed.err == None && LookupBool(fixed.entries, "no.key") == Some(false)
  {
    StartKeys();
    AnyMessage();
    FalseMessage();
    TrueMessage();
  }

  lemma BoolExample()
    ensures BoolApply(Start, "key.bool", true, false, true) == Applied(Start, None)
    ensures BoolApply(Start, "key.bool", false, false, true) ==
      Applied(Start, Some("key.bool is not a boolean equal to false"))
    ensures var fixed := BoolApply(Start, "key.bool", false, true, true);
      fixed.err == None && LookupBool(fixed.entries, "key.bool") == Some(false) &&
      BoolApply(fixed.entries, "no.key", true, false, true).err == Some("no.key is not a boolean equal to true") &&
      LookupBool(BoolApply(fixed.entries, "no.key", true, true, true).entries, "no.key") == Some(true)
  {
    StartKeys();
    AnyMessage();
    FalseMessage();
    TrueMessage();
  }

  /** The test sequence run on the directive objects, sharing one configuration. */
  method BoolTestSequence() returns (errs: seq<Option<string>>)
    ensures errs == [None, Some("key.bool is not a boolean equal to false"), None,
                     Some("no.key is not a boolean equal to true"), None]
  {
    StartKeys();
    AnyMessage();
    FalseMessage();
    TrueMessage();
    var cfg := new GitConfig(Start, true);
    var bd := new Bool("key.bool", true, cfg);
    var e1 := bd.Apply(false);
    bd := new Bool("key.bool", false, cfg);
    var e2 := bd.Apply(false);
    assert LookupBool(cfg.entries, "key.bool") == Some(true);
    var e3 := bd.Apply(true);
    assert LookupBool(cfg.entries, "key.bool") == Some(false);
    bd := new Bool("no.key", true, cfg);
    var e4 := bd.Apply(false);
    var e5 := bd.Apply(true);
    assert LookupBool(cfg.entries, "no.key") == Some(true);
    errs := [e1, e2, e3, e4, e5];
  }

  /** The AnyBoolDirective case: a boolean key passes, a missing one is reported, then fixed to false. */
  method AnyBoolTestSequence() returns (errs: seq<Option<string>>, fixed: Option<bool>)
    ensures errs == [None, Some("no.key is not a boolean"), None] && fixed == Some(false)
  {
    StartKeys();
    AnyMessage();
    FalseMessage();
    TrueMessage();
    var cfg := new GitConfig(Start, true);
    var abd := new AnyBool("key.bool", cfg);
    var e1 := abd.Apply(false);
    abd := new AnyBool("no.key", cfg);
    var e2 := abd.Apply(false);
    var e3 := abd.Apply(true);
    fixed := LookupBool(cfg.entries, "no.key");
    errs := [e1, e2, e3];
  }
}

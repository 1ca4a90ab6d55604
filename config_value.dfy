/**
 * parseValue of cmd/config.go: how `tug config key value` reads the value it stores. Rules
 * are tried in order: a bracketed list of comma-separated values, a quoted string, a decimal
 * integer, a boolean, a decimal number, and otherwise the text itself.
 */
module ConfigValue {
  import opened Wrappers
  import opened Text

  /**
   * A parsed value. A float is kept as the text it was read from: its binary value is not
   * modelled.
   */
  datatype Value =
    | Str(s: string)
    | Int(i: int)
    | Bool(b: bool)
    | Float(text: string)
    | List(items: seq<Value>)

  /** The message of a strconv.NumError: the function, the quoted input and the reason. */
  function NumError(fn: string, s: string, reason: string): string {
    "strconv." + fn + ": parsing \"" + s + "\": " + reason
  }

  /** strings.HasPrefix(s, "[") && strings.HasSuffix(s, "]") */
  predicate IsList(s: string) {
    |s| >= 2 && s[0] == '[' && s[|s| - 1] == ']'
  }

  /** The list test asks for two distinct characters, so a lone "[" is not a list. */
  lemma IsListIff(s: string)
    ensures IsList(s) <==> "[" <= s && HasSuffix(s, "]")
  {
    if "[" <= s && HasSuffix(s, "]") {
      assert s[0] == "["[0];
      assert s[|s| - 1] == s[|s| - 1..][0];
    }
  }

  /** `^\d+$` */
  predicate IntPattern(s: string) {
    |s| > 0 && AllDigits(s)
  }

  /**
   * `(?i)^true|false$`: the alternation binds loosest, so this is "starts with true" or "ends
   * with false", each up to case.
   */
  predicate BoolPattern(s: string) {
    (|s| >= 4 && FoldMatches(s[..4], "true")) || (|s| >= 5 && FoldMatches(s[|s| - 5..], "false"))
  }

  /** The number of leading decimal digits. */
  function LeadingDigits(s: string): (k: nat)
    ensures k <= |s| && AllDigits(s[..k])
    ensures k < |s| ==> !IsDigit(s[k])
  {
    if |s| > 0 && IsDigit(s[0]) then
      var k := 1 + LeadingDigits(s[1..]);
      assert s[..k] == [s[0]] + s[1..][..k - 1];
      k
    else 0
  }

  /** `^\d+(\.|,)\d+$` */
  predicate FloatPattern(s: string) {
    var k := LeadingDigits(s);
    0 < k < |s| - 1 && (s[k] == '.' || s[k] == ',') && AllDigits(s[k + 1..])
  }

  /** strconv.ParseInt(s, 10, 0) on a run of digits: an int64, or the range error. */
  function ParseInt(s: string): (r: Result<Value>)
    requires IntPattern(s)
    ensures r.Ok? <==> DigitsValue(s) <= MaxInt64
    ensures r.Ok? ==> r.value == Int(DigitsValue(s))
    ensures r.Err? ==> r.error == NumError("ParseInt", s, "value out of range")
  {
    if DigitsValue(s) > MaxInt64 then Err(NumError("ParseInt", s, "value out of range"))
    else Ok(Int(DigitsValue(s)))
  }

  /** strconv.ParseBool: the twelve spellings it accepts, or a syntax error. */
  function ParseBool(s: string): (r: Result<bool>)
    ensures r.Err? ==> r.error == NumError("ParseBool", s, "invalid syntax")
  {
    if s in {"1", "t", "T", "TRUE", "true", "True"} then Ok(true)
    else if s in {"0", "f", "F", "FALSE", "false", "False"} then Ok(false)
    else Err(NumError("ParseBool", s, "invalid syntax"))
  }

  /**
   * strconv.ParseFloat(s, 32) on a string of the float pattern: a number when the separator is
   * a dot; Go's float syntax has no decimal comma, so a comma is a syntax error.
   */
  function ParseFloat(s: string): (r: Result<Value>)
    requires FloatPattern(s)
    ensures r.Ok? <==> '.' in s
    ensures r.Ok? ==> r.value == Float(s)
    ensures r.Err? ==> r.error == NumError("ParseFloat", s, "invalid syntax")
  {
    var k := LeadingDigits(s);
    assert forall i :: 0 <= i < |s| && i != k ==> IsDigit(s[i]) by {
      forall i | 0 <= i < |s| && i != k ensures IsDigit(s[i]) {
        if i < k { assert s[i] == s[..k][i]; } else { assert s[i] == s[k + 1..][i - k - 1]; }
      }
    }
    if s[k] == '.' then Ok(Float(s)) else Err(NumError("ParseFloat", s, "invalid syntax"))
  }

  /** Every rule but the list one, in the order parseValue tries them. */
  function ScalarOf(s: string): Result<Value> {
    if "'" <= s then Ok(Str(Trim(s, {'\''})))
    else if IntPattern(s) then ParseInt(s)
    else if BoolPattern(s) then
      match ParseBool(s)
      case Ok(b) => Ok(Bool(b))
      case Err(e) => Err(e)
    else if FloatPattern(s) then ParseFloat(s)
    else Ok(Str(s))
  }

  /** The pieces of a list: the text between the brackets split at every comma, each trimmed of spaces. */
  function Pieces(s: string): (ts: seq<string>)
    requires IsList(s)
    ensures forall i :: 0 <= i < |ts| ==> |ts[i]| < |s|
  {
    var ps := Split(s[1..|s| - 1], ',');
    SplitShorter(s[1..|s| - 1], ',');
    seq(|ps|, i requires 0 <= i < |ps| => Trim(ps[i], {' '}))
  }

  /** What parseValue returns for `s`. */
  function ValueOf(s: string): Result<Value>
    decreases |s|, 1, 0
  {
    if IsList(s) then
      match ItemsOf(Pieces(s), |s|)
      case Ok(vs) => Ok(List(vs))
      case Err(e) => Err(e)
    else ScalarOf(s)
  }

  /** The values of the pieces of a list, or the error of the first piece that fails. */
  function ItemsOf(ts: seq<string>, n: nat): Result<seq<Value>>
    requires forall i :: 0 <= i < |ts| ==> |ts[i]| < n
    decreases n, 0, |ts|
  {
    if ts == [] then Ok([])
    else
      match ValueOf(ts[0])
      case Err(e) => Err(e)
      case Ok(v) =>
        match ItemsOf(ts[1..], n)
        case Err(e) => Err(e)
        case Ok(vs) => Ok([v] + vs)
  }

  /** The items of a list are the values of its pieces, one for one, when every piece has one. */
  lemma {:induction false} ItemsOfValues(ts: seq<string>, n: nat)
    requires forall i :: 0 <= i < |ts| ==> |ts[i]| < n
    ensures var r := ItemsOf(ts, n);
      (r.Ok? <==> forall i :: 0 <= i < |ts| ==> ValueOf(ts[i]).Ok?) &&
      (r.Ok? ==> |r.value| == |ts| && forall i :: 0 <= i < |ts| ==> ValueOf(ts[i]) == Ok(r.value[i]))
    decreases |ts|
  {
    if ts != [] {
      ItemsOfValues(ts[1..], n);
      assert forall i :: 1 <= i < |ts| ==> ts[i] == ts[1..][i - 1];
      var r := ItemsOf(ts[1..], n);
      if ValueOf(ts[0]).Ok? && r.Ok? {
        var v := ValueOf(ts[0]).value;
        assert forall i :: 1 <= i < |ts| ==> ([v] + r.value)[i] == r.value[i - 1];
      }
    }
  }

  /** A list that fails carries the error of its first piece that fails. */
  lemma {:induction false} ItemsOfFirstError(ts: seq<string>, n: nat)
    requires forall i :: 0 <= i < |ts| ==> |ts[i]| < n
    ensures var r := ItemsOf(ts, n);
      r.Err? ==> exists k :: 0 <= k < |ts| && ValueOf(ts[k]) == Err(r.error) &&
                             forall j :: 0 <= j < k ==> ValueOf(ts[j]).Ok?
    decreases |ts|
  {
    if ts != [] && ValueOf(ts[0]).Ok? {
      ItemsOfFirstError(ts[1..], n);
      var r := ItemsOf(ts[1..], n);
      if r.Err? {
        var k :| 0 <= k < |ts| - 1 && ValueOf(ts[1..][k]) == Err(r.error) &&
                 forall j :: 0 <= j < k ==> ValueOf(ts[1..][j]).Ok?;
        assert ts[k + 1] == ts[1..][k];
        assert forall j :: 1 <= j < k + 1 ==> ts[j] == ts[1..][j - 1];
      }
    }
  }

  /** The items found so far, put in front of what the remaining pieces give. */
  function Prepend(res: seq<Value>, r: Result<seq<Value>>): Result<seq<Value>> {
    match r
    case Ok(vs) => Ok(res + vs)
    case Err(e) => Err(e)
  }

  /** One step of the list: the first remaining piece, then the rest. */
  lemma ItemsOfStep(ts: seq<string>, n: nat, i: nat, res: seq<Value>)
    requires forall j :: 0 <= j < |ts| ==> |ts[j]| < n
    requires i < |ts|
    ensures ValueOf(ts[i]).Err? ==> Prepend(res, ItemsOf(ts[i..], n)) == Err(ValueOf(ts[i]).error)
    ensures ValueOf(ts[i]).Ok? ==>
              Prepend(res, ItemsOf(ts[i..], n)) == Prepend(res + [ValueOf(ts[i]).value], ItemsOf(ts[i + 1..], n))
  {
    assert ts[i..][0] == ts[i] && ts[i..][1..] == ts[i + 1..];
    var r := ItemsOf(ts[i + 1..], n);
    if ValueOf(ts[i]).Ok? && r.Ok? {
      assert res + ([ValueOf(ts[i]).value] + r.value) == (res + [ValueOf(ts[i]).value]) + r.value;
    }
  }

  /** parseValue: the list rule appends the value of each piece, and returns at the first error. */
  method ParseValue(s: string) returns (r: Result<Value>)
    ensures r == ValueOf(s)
    decreases |s|
  {
    if IsList(s) {
      var ps := Pieces(s);
      var res: seq<Value> := [];
      var i := 0;
      assert ps[0..] == ps;
      assert Prepend([], ItemsOf(ps, |s|)) == ItemsOf(ps, |s|) by {
        if ItemsOf(ps, |s|).Ok? { assert [] + ItemsOf(ps, |s|).value == ItemsOf(ps, |s|).value; }
      }
      while i < |ps|
        invariant 0 <= i <= |ps|
        invariant ItemsOf(ps, |s|) == Prepend(res, ItemsOf(ps[i..], |s|))
      {
        ItemsOfStep(ps, |s|, i, res);
        var v := ParseValue(ps[i]);
        if v.Err? {
          return Err(v.error);
        }
        res := res + [v.value];
        i := i + 1;
      }
      assert ps[i..] == [];
      assert res + [] == res;
      return Ok(List(res));
    }
    r := ScalarOf(s);
  }

  // ---------------------------------------------------------------------------
  // Properties.

  /**
   * A list whose pieces hold no comma reads back as the values of its pieces, trimmed of
   * spaces; it fails exactly when one of them fails, with the error of the first that does.
   */
  lemma ParseListJoin(ps: seq<string>)
    requires |ps| > 0 && forall i :: 0 <= i < |ps| ==> ',' !in ps[i]
    ensures var r := ValueOf("[" + Join(ps, ',') + "]");
      (r.Ok? <==> forall i :: 0 <= i < |ps| ==> ValueOf(Trim(ps[i], {' '})).Ok?) &&
      (r.Ok? ==> r.value.List? && |r.value.items| == |ps| &&
                 forall i :: 0 <= i < |ps| ==> ValueOf(Trim(ps[i], {' '})) == Ok(r.value.items[i])) &&
      (r.Err? ==> exists k :: 0 <= k < |ps| && ValueOf(Trim(ps[k], {' '})) == Err(r.error))
  {
    var s := "[" + Join(ps, ',') + "]";
    assert s[1..|s| - 1] == Join(ps, ',');
    SplitJoin(ps, ',');
    var ts := Pieces(s);
    assert |ts| == |ps| && forall i :: 0 <= i < |ps| ==> ts[i] == Trim(ps[i], {' '});
    ItemsOfValues(ts, |s|);
    ItemsOfFirstError(ts, |s|);
  }

  /** A quoted text without quotes at its ends reads back as the text, whatever it looks like. */
  lemma QuotedRoundTrip(t: string)
    requires |t| > 0 && t[0] != '\'' && t[|t| - 1] != '\''
    ensures ValueOf("'" + t + "'") == Ok(Str(t))
  {
    var s := "'" + t + "'";
    TrimWrapped(t, '\'', {'\''});
    assert s == ['\''] + t + ['\''];
    assert "'" <= s;
  }

  /** Every int64 that is not negative reads back from its decimal form. */
  lemma IntRoundTrip(n: nat)
    requires n <= MaxInt64
    ensures ValueOf(NatToString(n)) == Ok(Int(n))
  {
    var s := NatToString(n);
    NatToStringRoundTrip(n);
    assert IsDigit(s[0]);
  }

  /** A run of digits beyond the int64 range is an error, not a float or a string. */
  lemma IntOverflow(s: string)
    requires IntPattern(s) && DigitsValue(s) > MaxInt64
    ensures ValueOf(s) == Err(NumError("ParseInt", s, "value out of range"))
  {
    assert IsDigit(s[0]);
  }

  /** A spelling of "true" or "false" up to case is read by ParseBool. */
  lemma BoolSpelling(s: string, w: string)
    requires (w == "true" || w == "false") && FoldMatches(s, w)
    ensures ValueOf(s) == match ParseBool(s) case Ok(b) => Ok(Bool(b)) case Err(e) => Err(e)
  {
    FoldMatchesIff(s, w);
    assert FoldEq(s[0], w[0]);
    if w == "true" { assert s[..4] == s; } else { assert s[|s| - 5..] == s; }
  }

  /** "true", "True" and "TRUE" read back as true. */
  lemma TrueRoundTrip()
    ensures ValueOf("true") == Ok(Bool(true))
    ensures ValueOf("True") == Ok(Bool(true))
    ensures ValueOf("TRUE") == Ok(Bool(true))
  {
    assert FoldMatches("true", "true") && FoldMatches("True", "true") && FoldMatches("TRUE", "true");
    BoolSpelling("true", "true");
    BoolSpelling("True", "true");
    BoolSpelling("TRUE", "true");
  }

  /** "false", "False" and "FALSE" read back as false. */
  lemma FalseRoundTrip()
    ensures ValueOf("false") == Ok(Bool(false))
    ensures ValueOf("False") == Ok(Bool(false))
    ensures ValueOf("FALSE") == Ok(Bool(false))
  {
    assert FoldMatches("false", "false") && FoldMatches("False", "false") && FoldMatches("FALSE", "false");
    BoolSpelling("false", "false");
    BoolSpelling("False", "false");
    BoolSpelling("FALSE", "false");
  }

  /**
   * Anything that starts with "true" up to case is a boolean or an error: it never stays a
   * string, and neither does anything ending with "false".
   */
  lemma BoolPatternNeverString(s: string)
    requires !IsList(s) && !("'" <= s) && !IntPattern(s) && BoolPattern(s)
    ensures ValueOf(s).Ok? <==> ParseBool(s).Ok?
    ensures ValueOf(s).Ok? ==> ValueOf(s) == Ok(Bool(ParseBool(s).value))
    ensures ValueOf(s).Err? ==> ValueOf(s).error == NumError("ParseBool", s, "invalid syntax")
  {
  }

  /** Text that no rule matches is stored as it is. */
  lemma PlainText(s: string)
    requires !IsList(s) && !("'" <= s) && !IntPattern(s) && !BoolPattern(s) && !FloatPattern(s)
    ensures ValueOf(s) == Ok(Str(s))
  {
  }

  /** "[]" is a list of one empty string, since splitting "" gives one empty piece. */
  lemma EmptyBrackets()
    ensures ValueOf("[]") == Ok(List([Str("")]))
  {
    var s := "[]";
    assert s[1..|s| - 1] == "";
    assert Pieces(s) == [""];
    assert ValueOf("") == Ok(Str(""));
    assert ItemsOf([""], 2) == Ok([Str("")]) by {
      assert [""][0] == "" && [""][1..] == [];
      assert ItemsOf([], 2) == Ok([]);
      assert [Str("")] + [] == [Str("")];
    }
  }

  // ---------------------------------------------------------------------------
  // The cases of cmd/config_test.go and the precedence of the boolean pattern.

  lemma IntExample()
    ensures ValueOf("113") == Ok(Int(113))
  {
    IntRoundTrip(113);
    assert NatToString(113) == "113";
  }

  /** A number with a decimal dot is a float; with a decimal comma it is a syntax error. */
  lemma DecimalForms(a: string, b: string)
    requires IntPattern(a) && IntPattern(b)
    ensures ValueOf(a + "." + b) == Ok(Float(a + "." + b))
    ensures ValueOf(a + "," + b) == Err(NumError("ParseFloat", a + "," + b, "invalid syntax"))
  {
    DecimalPattern(a, b, '.');
    DecimalPattern(a, b, ',');
  }

  lemma DecimalPattern(a: string, b: string, sep: char)
    requires IntPattern(a) && IntPattern(b) && (sep == '.' || sep == ',')
    ensures var s := a + [sep] + b;
      !IsList(s) && !("'" <= s) && !IntPattern(s) && !BoolPattern(s) && FloatPattern(s) &&
      (sep == '.' <==> '.' in s)
  {
    var s := a + [sep] + b;
    LeadingDigitsOf(a, [sep] + b);
    assert s == a + ([sep] + b);
    assert s[|a| + 1..] == b;
    assert s[|a|] == sep && IsDigit(s[0]) && IsDigit(s[|s| - 1]);
    assert !IsDigit('t') && !IsDigit('e');
    if |s| >= 4 {
      FoldMatchesIff(s[..4], "true");
      assert s[..4][0] == s[0];
    }
    if |s| >= 5 {
      FoldMatchesIff(s[|s| - 5..], "false");
      assert s[|s| - 5..][4] == s[|s| - 1];
    }
    if sep == ',' {
      assert forall i :: 0 <= i < |s| ==> s[i] != '.' by {
        forall i | 0 <= i < |s| ensures s[i] != '.' {
          if i < |a| { assert s[i] == a[i]; } else if i > |a| { assert s[i] == b[i - |a| - 1]; }
        }
      }
    }
  }

  /** The leading digits of a run of digits followed by a non-digit are the run. */
  lemma {:induction false} LeadingDigitsOf(a: string, rest: string)
    requires AllDigits(a) && (|rest| > 0 ==> !IsDigit(rest[0]))
    ensures LeadingDigits(a + rest) == |a|
  {
    if |a| > 0 {
      assert (a + rest)[1..] == a[1..] + rest;
      LeadingDigitsOf(a[1..], rest);
    } else {
      assert a + rest == rest;
    }
  }

  lemma DecimalLiterals()
    ensures "113.42" == "113" + "." + "42" && "1,5" == "1" + "," + "5"
    ensures IntPattern("113") && IntPattern("42") && IntPattern("1") && IntPattern("5")
  {
  }

  lemma FloatExamples()
    ensures ValueOf("113.42") == Ok(Float("113.42"))
    ensures ValueOf("1,5") == Err(NumError("ParseFloat", "1,5", "invalid syntax"))
  {
    DecimalLiterals();
    DecimalForms("113", "42");
    DecimalForms("1", "5");
  }

  /** A word of lower-case letters that is none of the patterns. */
  lemma WordIsText(w: string)
    requires |w| > 0 && forall i :: 0 <= i < |w| ==> IsLowerAscii(w[i])
    requires !BoolPattern(w)
    ensures ValueOf(w) == Ok(Str(w)) && Trim(w, {' '}) == w
  {
    var c := w[0];
    assert IsLowerAscii(c) && IsLowerAscii(w[|w| - 1]);
    assert !IsList(w) && !IsDigit(c) && c != '\'';
    assert w[..1] == [c];
    assert LeadingDigits(w) == 0;
    PlainText(w);
    TrimEnds(w, {' '});
  }

  /** One leading space is trimmed off a word. */
  lemma TrimLeadingSpace(w: string)
    requires |w| > 0 && w[0] != ' ' && w[|w| - 1] != ' '
    ensures Trim(" " + w, {' '}) == w
  {
    var t := " " + w;
    assert t[1..] == w;
    assert LeadingIn(w, {' '}) == 0;
    assert LeadingIn(t, {' '}) == 1;
    assert TrimLeft(t, {' '}) == w;
    TrimEnds(w, {' '});
  }

  /** The text of a two-word list, as the join of its two pieces. */
  lemma TwoWordJoin(u: string, w: string)
    requires ',' !in u && ',' !in w
    ensures var ps := [u, " " + w];
      "[" + u + ", " + w + "]" == "[" + Join(ps, ',') + "]" &&
      forall i :: 0 <= i < |ps| ==> ',' !in ps[i]
  {
    var ps := [u, " " + w];
    assert ps[1..] == [" " + w];
    assert Join(ps, ',') == u + [','] + (" " + w);
  }

  /** Two words, the second after a space, make a list of two strings. */
  lemma TwoWordList(u: string, w: string)
    requires |u| > 0 && forall i :: 0 <= i < |u| ==> IsLowerAscii(u[i])
    requires |w| > 0 && forall i :: 0 <= i < |w| ==> IsLowerAscii(w[i])
    requires !BoolPattern(u) && !BoolPattern(w)
    ensures ValueOf("[" + u + ", " + w + "]") == Ok(List([Str(u), Str(w)]))
  {
    assert ',' !in u && ',' !in w;
    var ps := [u, " " + w];
    TwoWordJoin(u, w);
    WordIsText(u);
    WordIsText(w);
    TrimLeadingSpace(w);
    assert Trim(ps[0], {' '}) == u && Trim(ps[1], {' '}) == w;
    ParseListJoin(ps);
    var r := ValueOf("[" + Join(ps, ',') + "]");
    assert r.Ok?;
    assert r.value.items == [Str(u), Str(w)];
  }

  lemma WordLiterals()
    ensures "[foo, bar]" == "[" + "foo" + ", " + "bar" + "]"
    ensures forall i :: 0 <= i < 3 ==> IsLowerAscii("foo"[i]) && IsLowerAscii("bar"[i])
    ensures !BoolPattern("foo") && !BoolPattern("bar")
  {
  }

  lemma ListExample()
    ensures ValueOf("[foo, bar]") == Ok(List([Str("foo"), Str("bar")]))
  {
    WordLiterals();
    TwoWordList("foo", "bar");
  }

  lemma QuotedLiterals()
    ensures "'113'" == "'" + "113" + "'"
  {
  }

  /** The quote rule comes first: a quoted number stays a string. */
  lemma QuotedNumberExample()
    ensures ValueOf("'113'") == Ok(Str("113"))
  {
    QuotedLiterals();
    QuotedRoundTrip("113");
  }

  /**
   * Text that merely starts with "true" or ends with "false" is handed to ParseBool, which
   * refuses it, so it is an error instead of a string.
   */
  lemma BoolPrecedenceExamples()
    ensures ValueOf("trueish") == Err(NumError("ParseBool", "trueish", "invalid syntax"))
    ensures ValueOf("notfalse") == Err(NumError("ParseBool", "notfalse", "invalid syntax"))
  {
    assert FoldMatches("trueish"[..4], "true");
    assert FoldMatches("notfalse"[3..], "false");
  }
}

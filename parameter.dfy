/**
 * One named parameter (PARAM): its value history together with the
 * multiplicity constraints, the control hooks run on every added value, the
 * command-line grammar flags, wildcard expansion and print names.
 */
module Parameter {
  import opened Errors
  import opened ParamValue

  /** PARAM_SINGLE_VALUE and PARAM_SINGLE_VALUE_FOR_PRIORITY_LEVEL, as a pair of flags. */
  datatype Constraints = Constraints(singleValue: bool, singleValuePerPriority: bool)

  const Unconstrained := Constraints(false, false)

  /** The command-line grammar flags (PST_PRSCMD_...); an option is the set of flags raised. */
  datatype ParseFlag =
    | DefaultParsing
    | HasNoValue
    | HasValue
    | HasValueSequence
    | BreakWithPotentialParameter
    | BreakWithExistingParameterMatch
    | BreakWithDashPrefix
    | ExpandWildcard

  type ParseOption = set<ParseFlag>

  /** A value may not be both forbidden and required, and the default grammar excludes every arity flag. */
  predicate ValidCombination(o: ParseOption)
  {
    !(HasNoValue in o && (HasValue in o || HasValueSequence in o))
    && !(DefaultParsing in o && (HasNoValue in o || HasValue in o || HasValueSequence in o))
  }

  /** What a convert hook did: replaced the text, declined (PST_PARAM_CONVERT_NOT_PERFORMED), or failed. */
  datatype Conversion = Converted(text: string) | NotPerformed | ConvertFailed(error: Error)

  /** The hooks of PARAM_addControl; a check returns 0 for a good value. */
  datatype Controls = Controls(
    format: Option<Option<string> -> int>,
    content: Option<Option<string> -> int>,
    convert: Option<string -> Conversion>)

  const NoControls := Controls(None, None, None)

  /** A wildcard expander with its context: the texts one value stands for, or an error. */
  type Expander = string -> Result<seq<string>>

  /** Wildcard characters used when none are configured. */
  const DefaultWildcardChars := "*?"

  /** The text after the convert hook; NULL texts and missing hooks leave it alone. */
  function ConvertText(c: Controls, text: Option<string>): (r: Result<Option<string>>)
    ensures r.Failure? ==> r.error != Ok
    ensures text.None? ==> r == Success(None)
  {
    if c.convert.None? || text.None? then Success(text)
    else
      match c.convert.value(text.value)
      case Converted(t) => Success(Some(t))
      case NotPerformed => Success(text)
      case ConvertFailed(e) => Failure(e)
  }

  /** The value stored for a (converted) text: both checks run, independently of each other. */
  function Checked(c: Controls, text: Option<string>, source: Option<string>, priority: int): Value
  {
    Value(text, source, priority,
      if c.format.Some? then c.format.value(text) else 0,
      if c.content.Some? then c.content.value(text) else 0)
  }

  /** The error PARAM_VAL_new gives for a priority outside the valid range. */
  function PriorityError(priority: int): Status
  {
    if priority < PriorityValidBase then PriorityNegative else PriorityTooLarge
  }

  /**
   * The list and the status after adding a value: a failed conversion or a
   * priority out of range changes nothing; otherwise the converted text is
   * appended with the results of both checks.
   */
  function AddOutcome(c: Controls, vs: seq<Value>, text: Option<string>, source: Option<string>, priority: int)
    : (r: (seq<Value>, Status))
    ensures r.1 == Ok ==> |r.0| == |vs| + 1 && r.0[..|vs|] == vs
    ensures r.1 != Ok ==> r.0 == vs
  {
    match ConvertText(c, text)
    case Failure(e) => (vs, e)
    case Success(t) =>
      if !InRange(priority) then (vs, PriorityError(priority))
      else (vs + [Checked(c, t, source, priority)], Ok)
  }

  /** Two values of the list share a priority level. */
  predicate SharesPriority(vs: seq<Value>)
  {
    exists i, j :: 0 <= i < j < |vs| && vs[i].priority == vs[j].priority
  }

  /** Looks for a repeated priority, one value at a time against those before it. */
  function FindSharedPriority(vs: seq<Value>): (b: bool)
    ensures b <==> SharesPriority(vs)
  {
    if |vs| <= 1 then false
    else
      var init := vs[..|vs| - 1];
      assert forall i, j :: 0 <= i < j < |init| ==> init[i] == vs[i] && init[j] == vs[j];
      FindSharedPriority(init) || PriorityIn(init, vs[|vs| - 1].priority)
  }

  function PriorityIn(vs: seq<Value>, priority: int): (b: bool)
    ensures b <==> exists i :: 0 <= i < |vs| && vs[i].priority == priority
  {
    if |vs| == 0 then false
    else vs[|vs| - 1].priority == priority || PriorityIn(vs[..|vs| - 1], priority)
  }

  predicate HasWildcard(text: Option<string>, chars: string)
  {
    text.Some? && exists i :: 0 <= i < |text.value| && text.value[i] in chars
  }

  /** The values one wildcard value expands to: new values with its source and priority. */
  function Spawn(v: Value, texts: seq<string>): (r: seq<Value>)
    ensures |r| == |texts|
    ensures forall k :: 0 <= k < |r| ==> r[k] == Value(Some(texts[k]), v.source, v.priority, 0, 0)
  {
    if |texts| == 0 then []
    else Spawn(v, texts[..|texts| - 1]) + [Value(Some(texts[|texts| - 1]), v.source, v.priority, 0, 0)]
  }

  /** What one value becomes: itself when it has no wildcard character, else its expansions. */
  function ExpandOne(v: Value, chars: string, ex: Expander): Result<(seq<Value>, nat)>
  {
    if !HasWildcard(v.text, chars) then Success(([v], 0))
    else
      match ex(v.text.value)
      case Failure(e) => Failure(e)
      case Success(texts) => Success((Spawn(v, texts), |texts|))
  }

  /** The list after PARAM_expandWildcard, with the number of values the expander produced. */
  function Expansion(vs: seq<Value>, chars: string, ex: Expander): Result<(seq<Value>, nat)>
  {
    if |vs| == 0 then Success(([], 0))
    else
      match Expansion(vs[..|vs| - 1], chars, ex)
      case Failure(e) => Failure(e)
      case Success(done) =>
        match ExpandOne(vs[|vs| - 1], chars, ex)
        case Failure(e) => Failure(e)
        case Success(one) => Success((done.0 + one.0, done.1 + one.1))
  }

  function WildcardCount(vs: seq<Value>, chars: string): nat
  {
    if |vs| == 0 then 0
    else WildcardCount(vs[..|vs| - 1], chars) + (if HasWildcard(vs[|vs| - 1].text, chars) then 1 else 0)
  }

  /** The print name a parameter gets unless a constant is set: "-n" for one character, "--name" otherwise. */
  function DefaultPrintName(name: string): (r: string)
  {
    if |name| == 1 then "-" + name else "--" + name
  }

  // ---------------------------------------------------------------------
  // Properties
  // ---------------------------------------------------------------------

  /** Once the expander fails on a value, the whole expansion fails with that error. */
  lemma {:induction false} ExpansionFailureSticks(vs: seq<Value>, j: nat, chars: string, ex: Expander)
    requires j <= |vs|
    requires Expansion(vs[..j], chars, ex).Failure?
    ensures Expansion(vs, chars, ex) == Expansion(vs[..j], chars, ex)
  {
    if j < |vs| {
      var init := vs[..|vs| - 1];
      assert init[..j] == vs[..j];
      ExpansionFailureSticks(init, j, chars, ex);
    } else {
      assert vs[..j] == vs;
    }
  }

  /** Expansion replaces each wildcard value by its expansions and keeps every other value. */
  lemma {:induction false} ExpansionSize(vs: seq<Value>, chars: string, ex: Expander)
    requires Expansion(vs, chars, ex).Success?
    ensures |Expansion(vs, chars, ex).value.0| + WildcardCount(vs, chars)
         == |vs| + Expansion(vs, chars, ex).value.1
  {
    if |vs| > 0 {
      ExpansionSize(vs[..|vs| - 1], chars, ex);
    }
  }

  /** A list without wildcard values is left as it is, with nothing produced. */
  lemma {:induction false} ExpansionWithoutWildcards(vs: seq<Value>, chars: string, ex: Expander)
    requires forall v :: v in vs ==> !HasWildcard(v.text, chars)
    ensures Expansion(vs, chars, ex) == Success((vs, 0))
  {
    if |vs| > 0 {
      var init := vs[..|vs| - 1];
      assert forall v :: v in init ==> v in vs;
      ExpansionWithoutWildcards(init, chars, ex);
      assert init + [vs[|vs| - 1]] == vs;
    }
  }

  /** Expanded values inherit the priority of the value they replace, so the range is kept. */
  lemma {:induction false} ExpansionKeepsRange(vs: seq<Value>, chars: string, ex: Expander)
    requires forall v :: v in vs ==> InRange(v.priority)
    requires Expansion(vs, chars, ex).Success?
    ensures forall v :: v in Expansion(vs, chars, ex).value.0 ==> InRange(v.priority)
  {
    if |vs| > 0 {
      var init := vs[..|vs| - 1];
      assert forall v :: v in init ==> v in vs;
      ExpansionKeepsRange(init, chars, ex);
      assert vs[|vs| - 1] in vs;
    }
  }

  /**
   * Adding fails only on a failed conversion or a priority out of range; a
   * value failing its checks is still stored, as the last value, with the
   * converted text and the check results recorded.
   */
  lemma AddOutcomeMeaning(c: Controls, vs: seq<Value>, text: Option<string>, source: Option<string>, priority: int)
    ensures var (after, st) := AddOutcome(c, vs, text, source, priority);
      (st == Ok <==> ConvertText(c, text).Success? && InRange(priority))
      && (ConvertText(c, text).Failure? ==> st == ConvertText(c, text).error)
      && (ConvertText(c, text).Success? && priority < PriorityValidBase ==> st == PriorityNegative)
      && (ConvertText(c, text).Success? && priority > PriorityValidRoof ==> st == PriorityTooLarge)
      && (st == Ok ==>
            var v := after[|vs|];
            v.text == ConvertText(c, text).value && v.source == source && v.priority == priority
            && (v.formatStatus != 0 <==> c.format.Some? && c.format.value(v.text) != 0)
            && (v.contentStatus != 0 <==> c.content.Some? && c.content.value(v.text) != 0))
  {
  }

  /** A value just added is the last one: get at its index returns its text and priority. */
  lemma AddedValueIsLast(vs: seq<Value>, v: Value)
    ensures Extract(vs + [v], None, AnyPriority, At(|vs|)) == Success(v)
    ensures Extract(vs + [v], None, AnyPriority, Last) == Success(v)
  {
    UnfilteredExtract(vs + [v], |vs|);
    FirstAndLast(vs + [v], None, AnyPriority);
  }

  /** Adding a value raises the invalid count exactly when one of its checks failed. */
  lemma InvalidCountAfterAdd(vs: seq<Value>, v: Value)
    ensures InvalidCount(vs + [v], None, AnyPriority)
         == InvalidCount(vs, None, AnyPriority) + (if v.IsInvalid() then 1 else 0)
  {
    var f := Filter(None, Every, true);
    KeepConcat(vs, [v], f);
    assert [v][..0] == [];
  }

  /** Clearing match 0 of an unfiltered list makes the former second value the first. */
  lemma ClearFirstShiftsList(vs: seq<Value>)
    requires |vs| >= 2
    ensures Locate(vs, Selection(vs, None, AnyPriority, false), At(0)) == Success(0)
    ensures Extract(RemoveAt(vs, 0), None, AnyPriority, At(0)) == Success(vs[1])
  {
    UnfilteredExtract(vs, 0);
    KeepEverything(vs);
    PositionsMeaning(vs, Filter(None, Every, false));
    MonotoneAtMostIndex(Positions(vs, Filter(None, Every, false)), |vs|, 0);
    UnfilteredExtract(RemoveAt(vs, 0), 0);
  }

  /** The default print name is the name behind one dash when it is one character, two otherwise. */
  lemma DefaultPrintNameShape(name: string)
    requires |name| > 0
    ensures |name| == 1 ==> DefaultPrintName(name) == ['-'] + name
    ensures |name| > 1 ==> DefaultPrintName(name) == ['-', '-'] + name
    ensures DefaultPrintName(name)[|DefaultPrintName(name)| - |name|..] == name
  {
  }

  // ---------------------------------------------------------------------
  // The hooks and the expander exercised by the parameter tests
  // ---------------------------------------------------------------------

  predicate IsAlpha(c: char)
  {
    'a' <= c <= 'z' || 'A' <= c <= 'Z'
  }

  /** Format check: 1 unless every character is a letter. */
  function AlphaFormat(text: Option<string>): int
  {
    if text.Some? && forall i :: 0 <= i < |text.value| ==> IsAlpha(text.value[i]) then 0 else 1
  }

  /** Content check: 1 for NULL or for more than one character. */
  function AtMostOneChar(text: Option<string>): int
  {
    if text.None? || |text.value| > 1 then 1 else 0
  }

  /** The letters of a text, in order. */
  function Letters(s: string): (r: string)
    ensures forall i :: 0 <= i < |r| ==> IsAlpha(r[i])
    ensures |r| <= |s|
  {
    if |s| == 0 then []
    else Letters(s[..|s| - 1]) + (if IsAlpha(s[|s| - 1]) then [s[|s| - 1]] else [])
  }

  /** Conversion hook: drops every character that is not a letter. */
  function LettersOnly(s: string): Conversion
  {
    Converted(Letters(s))
  }

  /** Whatever text it gets, the letters-only conversion passes the alpha check. */
  lemma ConvertedTextPassesAlpha(text: string)
    ensures var c := Controls(Some(AlphaFormat), None, Some(LettersOnly));
      var t := ConvertText(c, Some(text));
      t.Success? && Checked(c, t.value, None, 0).formatStatus == 0
  {
  }

  /** The four parameters of the control test and the statuses their values get. */
  lemma HookExamples()
    ensures Checked(Controls(Some(AlphaFormat), None, None), Some("abcd"), None, 0).IsInvalid() == false
    ensures Checked(Controls(Some(AlphaFormat), None, None), Some("1234"), None, 0).formatStatus == 1
    ensures Checked(Controls(None, Some(AtMostOneChar), None), Some("1"), None, 0).IsInvalid() == false
    ensures Checked(Controls(None, Some(AtMostOneChar), None), Some("12"), None, 0).contentStatus == 1
    ensures var c := Controls(Some(AlphaFormat), None, Some(LettersOnly));
      ConvertText(c, Some("a1b2c3")) == Success(Some("abc"))
      && !Checked(c, Some("abc"), None, 0).IsInvalid()
  {
    assert !IsAlpha('1') && "1234"[0] == '1';
    assert Letters("a1b2c3") == "abc" by {
      assert "a1b2c3"[..5] == "a1b2c";
      assert "a1b2c"[..4] == "a1b2";
      assert "a1b2"[..3] == "a1b";
      assert "a1b"[..2] == "a1";
      assert "a1"[..1] == "a";
      assert "a"[..0] == "";
    }
  }

  /**
   * The second parameter of the control test gets "a", "1" and "aa" with a
   * letters-only format check and a one-character content check: two invalid
   * values, the first failing on format and the second on content.
   */
  lemma TwoChecksExample()
    ensures var c := Controls(Some(AlphaFormat), Some(AtMostOneChar), None);
      var vs := [Checked(c, Some("a"), None, 0), Checked(c, Some("1"), None, 0), Checked(c, Some("aa"), None, 0)];
      InvalidCount(vs, None, AnyPriority) == 2
      && ExtractInvalid(vs, None, AnyPriority, At(0)) == Success(Value(Some("1"), None, 0, 1, 0))
      && ExtractInvalid(vs, None, AnyPriority, At(1)) == Success(Value(Some("aa"), None, 0, 0, 1))
      && ExtractInvalid(vs, None, AnyPriority, At(2)) == Failure(ParameterValueNotFound)
  {
    var c := Controls(Some(AlphaFormat), Some(AtMostOneChar), None);
    assert !IsAlpha('1') && "1"[0] == '1';
    var a, b, d := Checked(c, Some("a"), None, 0), Checked(c, Some("1"), None, 0), Checked(c, Some("aa"), None, 0);
    assert a == Value(Some("a"), None, 0, 0, 0);
    assert b == Value(Some("1"), None, 0, 1, 0);
    assert d == Value(Some("aa"), None, 0, 0, 1);
    var vs := [a, b, d];
    var f := Filter(None, Every, true);
    assert Selection(vs, None, AnyPriority, true) == f;
    assert vs[..2] == [a, b] && [a, b][..1] == [a] && [a][..0] == [];
    assert Keep([a], f) == [] && Keep([a, b], f) == [b];
    assert Keep(vs, f) == [b, d];
    assert Positions(vs, f) == [1, 2];
  }

  /**
   * The expander of the wildcard test: a three-character pattern matches an
   * accepted string where each position is the wildcard or the same character;
   * any other length is a format error.
   */
  function ThreeCharExpander(accepted: seq<string>, wc: char): Expander
  {
    (input: string) =>
      if |input| != 3 then Failure(InvalidFormat)
      else Success(Matching(accepted, input, wc))
  }

  function Matching(accepted: seq<string>, input: string, wc: char): seq<string>
    requires |input| == 3
  {
    if |accepted| == 0 then []
    else
      var s := accepted[|accepted| - 1];
      Matching(accepted[..|accepted| - 1], input, wc)
      + (if |s| >= 3 && (input[0] == wc || input[0] == s[0]) && (input[1] == wc || input[1] == s[1])
            && (input[2] == wc || input[2] == s[2]) then [s] else [])
  }

  /** The accepted strings of the wildcard test. */
  const TestAccepted: seq<string> := ["abc", "cba", "efx", "ebc", "eee"]

  lemma TestAcceptedPrefixes()
    ensures TestAccepted[..4][..3] == TestAccepted[..3] && TestAccepted[..3][..2] == TestAccepted[..2]
    ensures TestAccepted[..2][..1] == TestAccepted[..1] && TestAccepted[..1][..0] == TestAccepted[..0] == []
    ensures TestAccepted[..5] == TestAccepted
  {
  }

  lemma MatchingEf()
    ensures Matching(TestAccepted, "ef?", '?') == ["efx"]
  {
    TestAcceptedPrefixes();
    assert Matching(TestAccepted[..0], "ef?", '?') == [];
    assert Matching(TestAccepted[..1], "ef?", '?') == [];
    assert Matching(TestAccepted[..2], "ef?", '?') == [];
    assert Matching(TestAccepted[..3], "ef?", '?') == ["efx"];
    assert Matching(TestAccepted[..4], "ef?", '?') == ["efx"];
  }

  lemma MatchingQx()
    ensures Matching(TestAccepted, "?x?", '?') == []
  {
    TestAcceptedPrefixes();
    assert Matching(TestAccepted[..0], "?x?", '?') == [];
    assert Matching(TestAccepted[..1], "?x?", '?') == [];
    assert Matching(TestAccepted[..2], "?x?", '?') == [];
    assert Matching(TestAccepted[..3], "?x?", '?') == [];
    assert Matching(TestAccepted[..4], "?x?", '?') == [];
  }

  lemma MatchingQb()
    ensures Matching(TestAccepted, "?b?", '?') == ["abc", "cba", "ebc"]
  {
    TestAcceptedPrefixes();
    assert Matching(TestAccepted[..0], "?b?", '?') == [];
    assert Matching(TestAccepted[..1], "?b?", '?') == ["abc"];
    assert Matching(TestAccepted[..2], "?b?", '?') == ["abc", "cba"];
    assert Matching(TestAccepted[..3], "?b?", '?') == ["abc", "cba"];
    assert Matching(TestAccepted[..4], "?b?", '?') == ["abc", "cba", "ebc"];
  }

  lemma MatchingEqq()
    ensures Matching(TestAccepted, "e??", '?') == ["efx", "ebc", "eee"]
  {
    TestAcceptedPrefixes();
    assert Matching(TestAccepted[..0], "e??", '?') == [];
    assert Matching(TestAccepted[..1], "e??", '?') == [];
    assert Matching(TestAccepted[..2], "e??", '?') == [];
    assert Matching(TestAccepted[..3], "e??", '?') == ["efx"];
    assert Matching(TestAccepted[..4], "e??", '?') == ["efx", "ebc"];
  }

  /** What the test's expander produces for each of the four wildcard values. */
  lemma ExpanderExamples()
    ensures ExpandsLikeTest(ThreeCharExpander(TestAccepted, '?'))
  {
    MatchingEf();
    MatchingQx();
    MatchingQb();
    MatchingEqq();
  }

  /** Expanding one more value appends what that value becomes to the expansion before it. */
  lemma ExpansionSnoc(vs: seq<Value>, v: Value, chars: string, ex: Expander,
                      done: seq<Value>, n: nat, one: seq<Value>, m: nat)
    requires Expansion(vs, chars, ex) == Success((done, n))
    requires ExpandOne(v, chars, ex) == Success((one, m))
    ensures Expansion(vs + [v], chars, ex) == Success((done + one, n + m))
  {
    var w := vs + [v];
    assert w[..|w| - 1] == vs && w[|w| - 1] == v;
  }

  lemma WildcardFacts()
    ensures HasWildcard(Some("ef?"), DefaultWildcardChars) && HasWildcard(Some("?x?"), DefaultWildcardChars)
    ensures HasWildcard(Some("?b?"), DefaultWildcardChars) && HasWildcard(Some("e??"), DefaultWildcardChars)
    ensures !HasWildcard(Some("xxx"), DefaultWildcardChars) && !HasWildcard(Some("yyy"), DefaultWildcardChars)
  {
    assert "ef?"[2] == '?' && "?x?"[0] == '?' && "?b?"[0] == '?' && "e??"[1] == '?';
  }

  /** What an expander must produce for the wildcard values of the test. */
  predicate ExpandsLikeTest(ex: Expander)
  {
    ex("ef?") == Success(["efx"]) && ex("?x?") == Success([])
    && ex("?b?") == Success(["abc", "cba", "ebc"]) && ex("e??") == Success(["efx", "ebc", "eee"])
  }

  /** The three values of the wildcard test that the expander turns into others. */
  lemma ExpandedExamples(ex: Expander)
    requires ExpandsLikeTest(ex)
    ensures ExpandOne(V("ef?"), DefaultWildcardChars, ex) == Success(([V("efx")], 1))
    ensures ExpandOne(V("?b?"), DefaultWildcardChars, ex) == Success(([V("abc"), V("cba"), V("ebc")], 3))
    ensures ExpandOne(V("e??"), DefaultWildcardChars, ex) == Success(([V("efx"), V("ebc"), V("eee")], 3))
  {
    WildcardFacts();
    assert Spawn(V("ef?"), ["efx"]) == [V("efx")];
    assert Spawn(V("?b?"), ["abc", "cba", "ebc"]) == [V("abc"), V("cba"), V("ebc")];
    assert Spawn(V("e??"), ["efx", "ebc", "eee"]) == [V("efx"), V("ebc"), V("eee")];
  }

  /** The values without wildcards stay, and the one the expander matches to nothing disappears. */
  lemma KeptOrDroppedExamples(ex: Expander)
    requires ExpandsLikeTest(ex)
    ensures ExpandOne(V("xxx"), DefaultWildcardChars, ex) == Success(([V("xxx")], 0))
    ensures ExpandOne(V("?x?"), DefaultWildcardChars, ex) == Success(([], 0))
    ensures ExpandOne(V("yyy"), DefaultWildcardChars, ex) == Success(([V("yyy")], 0))
  {
    WildcardFacts();
  }

  /** What each value of the wildcard test becomes on its own. */
  lemma ExpandOneExamples(ex: Expander)
    requires ExpandsLikeTest(ex)
    ensures ExpandOne(V("ef?"), DefaultWildcardChars, ex) == Success(([V("efx")], 1))
    ensures ExpandOne(V("xxx"), DefaultWildcardChars, ex) == Success(([V("xxx")], 0))
    ensures ExpandOne(V("?x?"), DefaultWildcardChars, ex) == Success(([], 0))
    ensures ExpandOne(V("?b?"), DefaultWildcardChars, ex) == Success(([V("abc"), V("cba"), V("ebc")], 3))
    ensures ExpandOne(V("yyy"), DefaultWildcardChars, ex) == Success(([V("yyy")], 0))
    ensures ExpandOne(V("e??"), DefaultWildcardChars, ex) == Success(([V("efx"), V("ebc"), V("eee")], 3))
  {
    ExpandedExamples(ex);
    KeptOrDroppedExamples(ex);
  }

  /**
   * The six values of the wildcard test expand into nine, seven of them
   * produced: "xxx" and "yyy" stay where they are, "?x?" disappears.
   */
  lemma WildcardExample(ex: Expander)
    requires ExpandsLikeTest(ex)
    ensures Expansion([V("ef?"), V("xxx"), V("?x?"), V("?b?"), V("yyy"), V("e??")], DefaultWildcardChars, ex)
         == Success(([V("efx"), V("xxx"), V("abc"), V("cba"), V("ebc"), V("yyy"), V("efx"), V("ebc"), V("eee")], 7))
  {
    var wc := DefaultWildcardChars;
    var a, b, c, d, e, f := V("ef?"), V("xxx"), V("?x?"), V("?b?"), V("yyy"), V("e??");
    ExpandOneExamples(ex);
    ExpansionSnoc([], a, wc, ex, [], 0, [V("efx")], 1);
    assert [] + [a] == [a];
    ExpansionSnoc([a], b, wc, ex, [V("efx")], 1, [b], 0);
    assert [a] + [b] == [a, b] && [V("efx")] + [b] == [V("efx"), b];
    ExpansionSnoc([a, b], c, wc, ex, [V("efx"), b], 1, [], 0);
    assert [a, b] + [c] == [a, b, c] && [V("efx"), b] + [] == [V("efx"), b];
    ExpansionSnoc([a, b, c], d, wc, ex, [V("efx"), b], 1, [V("abc"), V("cba"), V("ebc")], 3);
    var four := [V("efx"), b, V("abc"), V("cba"), V("ebc")];
    assert [a, b, c] + [d] == [a, b, c, d] && [V("efx"), b] + [V("abc"), V("cba"), V("ebc")] == four;
    ExpansionSnoc([a, b, c, d], e, wc, ex, four, 4, [e], 0);
    assert [a, b, c, d] + [e] == [a, b, c, d, e];
    ExpansionSnoc([a, b, c, d, e], f, wc, ex, four + [e], 4, [V("efx"), V("ebc"), V("eee")], 3);
    assert [a, b, c, d, e] + [f] == [a, b, c, d, e, f];
    assert four + [e] + [V("efx"), V("ebc"), V("eee")]
        == [V("efx"), V("xxx"), V("abc"), V("cba"), V("ebc"), V("yyy"), V("efx"), V("ebc"), V("eee")];
  }

  /** A value as the wildcard test adds it: no source, priority 0, no check failed. */
  function V(text: string): Value
  {
    Value(Some(text), None, 0, 0, 0)
  }

  class Param {
    const name: string
    const alias: Option<string>
    const constraints: Constraints
    const list: ValueList
    var parseOption: ParseOption
    var controls: Controls
    var wildcardChars: string
    var expander: Option<Expander>
    var printName: Option<string>
    var printNameAlias: Option<string>

    ghost predicate Valid()
      reads this, list
    {
      list.Valid()
    }

    /** PARAM_new. */
    constructor (name: string, alias: Option<string>, constraints: Constraints, parseOption: ParseOption)
      ensures Valid() && fresh(list)
      ensures this.name == name && this.alias == alias && this.constraints == constraints
      ensures this.parseOption == parseOption && list.values == []
      ensures controls.format.None? && controls.content.None? && controls.convert.None?
      ensures wildcardChars == DefaultWildcardChars && expander.None?
      ensures printName.None? && printNameAlias.None?
    {
      this.name := name;
      this.alias := alias;
      this.constraints := constraints;
      this.parseOption := parseOption;
      list := new ValueList();
      controls := NoControls;
      wildcardChars := DefaultWildcardChars;
      expander := None;
      printName := None;
      printNameAlias := None;
    }

    /** PARAM_addControl. */
    method AddControl(c: Controls)
      modifies this
      ensures controls == c
      ensures parseOption == old(parseOption) && wildcardChars == old(wildcardChars) && expander == old(expander)
      ensures printName == old(printName) && printNameAlias == old(printNameAlias)
    {
      controls := c;
    }

    /**
     * PARAM_addValue: converts the text, stores it whatever the checks say and
     * records both check results with it.
     */
    method AddValue(text: Option<string>, source: Option<string>, priority: int) returns (st: Status)
      requires Valid()
      modifies list
      ensures Valid()
      ensures (list.values, st) == AddOutcome(controls, old(list.values), text, source, priority)
    {
      var converted := ConvertText(controls, text);
      if converted.Failure? {
        return converted.error;
      }
      var t := converted.value;
      ghost var before := list.values;
      st := list.Append(t, source, priority);
      if st == Ok {
        var stored := Checked(controls, t, source, priority);
        list.SetStatus(|list.values| - 1, stored.formatStatus, stored.contentStatus);
        assert list.values == before + [stored];
      }
    }

    /** PARAM_getValue. */
    method GetValue(source: Option<string>, sel: PrioritySelector, at: Index) returns (r: Result<Value>)
      ensures r == Extract(list.values, source, sel, at)
    {
      r := list.GetElement(source, sel, at);
    }

    /** PARAM_getAtr: the source and the priority of the selected value. */
    method GetAttributes(source: Option<string>, sel: PrioritySelector, at: Index)
      returns (r: Result<(Option<string>, int)>)
      ensures r.Success? <==> Extract(list.values, source, sel, at).Success?
      ensures r.Success? ==> r.value == (Extract(list.values, source, sel, at).value.source,
                                         Extract(list.values, source, sel, at).value.priority)
      ensures r.Failure? ==> r.error == Extract(list.values, source, sel, at).error
    {
      var v := list.GetElement(source, sel, at);
      r := if v.Success? then Success((v.value.source, v.value.priority)) else Failure(v.error);
    }

    /** PARAM_checkConstraints: the asked-for constraints that this parameter has and breaks. */
    function CheckConstraints(asked: Constraints): (r: Constraints)
      reads this, list
      ensures r.singleValue <==> asked.singleValue && constraints.singleValue && |list.values| > 1
      ensures r.singleValuePerPriority <==>
        asked.singleValuePerPriority && constraints.singleValuePerPriority
        && exists i, j :: 0 <= i < j < |list.values| && list.values[i].priority == list.values[j].priority
      ensures constraints == Unconstrained ==> r == Unconstrained
    {
      Constraints(
        asked.singleValue && constraints.singleValue && |list.values| > 1,
        asked.singleValuePerPriority && constraints.singleValuePerPriority && FindSharedPriority(list.values))
    }

    /** PARAM_setParseOption: an illegal combination is refused and the old option kept. */
    method SetParseOption(o: ParseOption) returns (st: Status)
      modifies this
      ensures ValidCombination(o) ==> st == Ok && parseOption == o
      ensures !ValidCombination(o) ==> st == ParseOptionInvalidCombination && parseOption == old(parseOption)
      ensures controls == old(controls) && wildcardChars == old(wildcardChars) && expander == old(expander)
      ensures printName == old(printName) && printNameAlias == old(printNameAlias)
    {
      if !ValidCombination(o) {
        return ParseOptionInvalidCombination;
      }
      parseOption := o;
      st := Ok;
    }

    /** PARAM_isParseOptionSet: every flag of the mask is raised. */
    predicate IsParseOptionSet(mask: ParseOption)
      reads this
    {
      mask <= parseOption
    }

    /** PARAM_setWildcardExpander: no character list means the default "*?". */
    method SetWildcardExpander(chars: Option<string>, ex: Expander)
      modifies this
      ensures wildcardChars == (if chars.Some? then chars.value else DefaultWildcardChars)
      ensures expander.Some? && expander.value == ex
      ensures parseOption == old(parseOption) && controls == old(controls)
      ensures printName == old(printName) && printNameAlias == old(printNameAlias)
    {
      wildcardChars := if chars.Some? then chars.value else DefaultWildcardChars;
      expander := Some(ex);
    }

    /**
     * PARAM_expandWildcard: every value holding a wildcard character is replaced,
     * where it stands, by the values the expander produces for it.
     */
    method ExpandWildcards() returns (st: Status, count: nat)
      requires Valid()
      modifies list
      ensures Valid()
      ensures expander.None? ==> st == UnimplementedWildcard && list.values == old(list.values)
      ensures expander.Some? ==>
        match Expansion(old(list.values), wildcardChars, expander.value)
        case Success(done) => st == Ok && list.values == done.0 && count == done.1
        case Failure(e) => st == e && list.values == old(list.values)
    {
      if expander.None? {
        return UnimplementedWildcard, 0;
      }
      var ex := expander.value;
      var vs := list.values;
      var out: seq<Value> := [];
      var n: nat := 0;
      var i := 0;
      while i < |vs|
        invariant 0 <= i <= |vs|
        invariant Expansion(vs[..i], wildcardChars, ex) == Success((out, n))
      {
        assert vs[..i + 1][..i] == vs[..i];
        var v := vs[i];
        if HasWildcard(v.text, wildcardChars) {
          var produced := ex(v.text.value);
          if produced.Failure? {
            ExpansionFailureSticks(vs, i + 1, wildcardChars, ex);
            return produced.error, 0;
          }
          out := out + Spawn(v, produced.value);
          n := n + |produced.value|;
        } else {
          out := out + [v];
        }
        i := i + 1;
      }
      assert vs[..i] == vs;
      ExpansionKeepsRange(vs, wildcardChars, ex);
      list.values := out;
      st, count := Ok, n;
    }

    /** PARAM_clearValue: removes the selected value. */
    method ClearValue(source: Option<string>, sel: PrioritySelector, at: Index) returns (st: Status)
      requires Valid()
      modifies list
      ensures Valid()
      ensures st == Ok <==> Extract(old(list.values), source, sel, at).Success?
      ensures st != Ok ==> st == Extract(old(list.values), source, sel, at).error
      ensures match Locate(old(list.values), Selection(old(list.values), source, sel, false), at)
        case Success(p) => list.values == RemoveAt(old(list.values), p)
        case Failure(_) => list.values == old(list.values)
    {
      var r := list.Pop(source, sel, at);
      st := if r.Success? then Ok else r.error;
    }

    /** PARAM_clearAll. */
    method ClearAll()
      requires Valid()
      modifies list
      ensures Valid() && list.values == []
    {
      list.Clear();
    }

    /** PARAM_getPrintName. */
    function PrintName(): (r: string)
      reads this
      ensures printName.None? ==> r == DefaultPrintName(name)
      ensures printName.Some? ==> r == printName.value
    {
      if printName.Some? then printName.value else DefaultPrintName(name)
    }

    /** PARAM_getPrintNameAlias: NULL when there is no alias. */
    function PrintNameAlias(): (r: Option<string>)
      reads this
      ensures alias.None? ==> r.None?
      ensures alias.Some? && printNameAlias.None? ==> r == Some(DefaultPrintName(alias.value))
      ensures alias.Some? && printNameAlias.Some? ==> r == printNameAlias
    {
      if alias.None? then None
      else if printNameAlias.Some? then printNameAlias
      else Some(DefaultPrintName(alias.value))
    }

    /** PARAM_setPrintName with a constant string. */
    method SetPrintName(constant: string)
      modifies this
      ensures printName == Some(constant) && printNameAlias == old(printNameAlias)
      ensures PrintName() == constant
      ensures parseOption == old(parseOption) && controls == old(controls)
      ensures wildcardChars == old(wildcardChars) && expander == old(expander)
    {
      printName := Some(constant);
    }

    /** PARAM_setPrintNameAlias with a constant string: refused when there is no alias. */
    method SetPrintNameAlias(constant: string) returns (st: Status)
      modifies this
      ensures alias.None? ==> st == AliasNotSpecified && printNameAlias == old(printNameAlias)
      ensures alias.Some? ==> st == Ok && printNameAlias == Some(constant) && PrintNameAlias() == Some(constant)
      ensures printName == old(printName)
      ensures parseOption == old(parseOption) && controls == old(controls)
      ensures wildcardChars == old(wildcardChars) && expander == old(expander)
    {
      if alias.None? {
        return AliasNotSpecified;
      }
      printNameAlias := Some(constant);
      st := Ok;
    }
  }

  /** A one-letter name gets one dash, a longer name two. */
  lemma DefaultPrintNameExamples()
    ensures DefaultPrintName("string") == "--string" && DefaultPrintName("s") == "-s"
    ensures DefaultPrintName("long") == "--long" && DefaultPrintName("l") == "-l"
  {
    assert "--" + "string" == "--string";
    assert "-" + "s" == "-s";
    assert "--" + "long" == "--long";
    assert "-" + "l" == "-l";
  }

  /** The default print names of four parameters, with and without an alias. */
  method DefaultPrintNameExample() returns (names: seq<string>, aliases: seq<Option<string>>)
    ensures names == ["--string", "-s", "--long", "-l"]
    ensures aliases == [None, None, Some("-l"), Some("--long")]
  {
    var p1 := new Param("string", None, Unconstrained, {});
    var p2 := new Param("s", None, Unconstrained, {});
    var p3 := new Param("long", Some("l"), Unconstrained, {});
    var p4 := new Param("l", Some("long"), Unconstrained, {});
    DefaultPrintNameExamples();
    names := [p1.PrintName(), p2.PrintName(), p3.PrintName(), p4.PrintName()];
    aliases := [p1.PrintNameAlias(), p2.PrintNameAlias(), p3.PrintNameAlias(), p4.PrintNameAlias()];
  }

  /** A parameter without an alias refuses an alias print name and keeps none. */
  method MissingAliasExample() returns (st: Status, printed: Option<string>)
    ensures st == AliasNotSpecified && printed.None?
  {
    var p := new Param("string", None, Unconstrained, {});
    st := p.SetPrintNameAlias("const");
    printed := p.PrintNameAlias();
  }

  /** Constant print names replace both defaults. */
  method ConstantPrintNameExample() returns (st: Status, printed: string, printedAlias: Option<string>)
    ensures st == Ok && printed == "constant" && printedAlias == Some("alias constant")
  {
    var p := new Param("string", Some("s"), Unconstrained, {});
    p.SetPrintName("constant");
    st := p.SetPrintNameAlias("alias constant");
    printed := p.PrintName();
    printedAlias := p.PrintNameAlias();
  }

  /**
   * The parse options a parameter reports: the default it was made with, then
   * the flags of each accepted option and none of the others.
   */
  method ParseOptionExample() returns (reported: seq<bool>)
    ensures reported == [true, false, true, false, true, false, true, false]
  {
    var p := new Param("string", None, Unconstrained, {DefaultParsing});
    var made := [p.IsParseOptionSet({DefaultParsing}),
      p.IsParseOptionSet({HasValue, HasValueSequence, HasNoValue})];

    var s1 := p.SetParseOption({});
    assert HasValue !in p.parseOption;
    var none := [s1 == Ok && p.IsParseOptionSet({}),
      p.IsParseOptionSet({HasValue, HasValueSequence, HasNoValue, DefaultParsing})];

    var s2 := p.SetParseOption({HasValue, BreakWithPotentialParameter});
    assert DefaultParsing !in p.parseOption;
    var single := [s2 == Ok && p.IsParseOptionSet({HasValue, BreakWithPotentialParameter}),
      p.IsParseOptionSet({HasValueSequence, HasNoValue, BreakWithExistingParameterMatch, DefaultParsing})];

    var s3 := p.SetParseOption({HasValueSequence, BreakWithExistingParameterMatch});
    assert HasValue !in p.parseOption;
    var sequence := [s3 == Ok && p.IsParseOptionSet({HasValueSequence, BreakWithExistingParameterMatch}),
      p.IsParseOptionSet({HasNoValue, BreakWithPotentialParameter, DefaultParsing, HasValue})];

    reported := made + none + single + sequence;
  }

  /**
   * Five illegal combinations are refused one after another, and the option
   * accepted before them is still the one reported.
   */
  method RefusedParseOptionExample() returns (refused: seq<Status>, reported: seq<bool>)
    ensures refused == [ParseOptionInvalidCombination, ParseOptionInvalidCombination,
      ParseOptionInvalidCombination, ParseOptionInvalidCombination, ParseOptionInvalidCombination]
    ensures reported == [true, false]
  {
    var p := new Param("string", None, Unconstrained, {DefaultParsing});
    var accepted := {HasValueSequence, BreakWithExistingParameterMatch};
    var s := p.SetParseOption(accepted);
    var r1 := p.SetParseOption({HasValueSequence, HasNoValue});
    var r2 := p.SetParseOption({HasValue, HasNoValue});
    var r3 := p.SetParseOption({DefaultParsing, HasNoValue});
    var r4 := p.SetParseOption({DefaultParsing, HasValueSequence});
    var r5 := p.SetParseOption({DefaultParsing, HasValue});
    refused := [r1, r2, r3, r4, r5];
    assert p.parseOption == accepted && HasValue !in accepted;
    reported := [p.IsParseOptionSet(accepted),
      p.IsParseOptionSet({HasNoValue, BreakWithPotentialParameter, DefaultParsing, HasValue})];
  }
}

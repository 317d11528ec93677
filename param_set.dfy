/**
 * The parameter set (PARAM_SET): an ordered collection of parameters looked up
 * by name or alias, with the lists of tokens that named no parameter (typos and
 * unknowns). Adding routes a value to its parameter or classifies the name;
 * multi-name queries index over the matches of every named parameter in turn.
 */
module ParamSet {
  import opened Errors
  import opened ParamValue
  import opened Parameter
  import Typo

  /** What the set knows of one parameter besides its values. */
  datatype Entry = Entry(name: string, alias: Option<string>, controls: Controls, option: ParseOption)

  /** A name that matched no parameter, with the value given for it. */
  datatype Stray = Stray(token: string, value: Option<string>, source: Option<string>, priority: int)

  /** The values of every parameter, in set order, with the typo and unknown lists. */
  datatype Snapshot = Snapshot(lists: seq<seq<Value>>, typos: seq<Stray>, unknowns: seq<Stray>)

  /** A parameter answers to its name and to its alias. */
  predicate Answers(e: Entry, name: string)
  {
    e.name == name || e.alias == Some(name)
  }

  /** The first parameter answering to the name. */
  function Lookup(cfg: seq<Entry>, name: string): (r: Option<nat>)
    ensures r.Some? ==> r.value < |cfg|
  {
    LookupFrom(cfg, name, 0)
  }

  /** The first parameter from position `i` on that answers to the name. */
  function LookupFrom(cfg: seq<Entry>, name: string, i: nat): (r: Option<nat>)
    requires i <= |cfg|
    ensures r.Some? ==> i <= r.value < |cfg|
    decreases |cfg| - i
  {
    if i == |cfg| then None
    else if Answers(cfg[i], name) then Some(i)
    else LookupFrom(cfg, name, i + 1)
  }

  /** The parameter names the typo classifier compares a token with. */
  function NamesOf(cfg: seq<Entry>): (r: seq<string>)
    ensures |r| == |cfg| && forall i :: 0 <= i < |cfg| ==> r[i] == cfg[i].name
  {
    seq(|cfg|, i requires 0 <= i < |cfg| => cfg[i].name)
  }

  /** A snapshot fits a configuration: one list per parameter, no empty name. */
  predicate WellFormed(cfg: seq<Entry>, s: Snapshot)
  {
    |s.lists| == |cfg| && Typo.NamesOk(NamesOf(cfg))
  }

  /**
   * PARAM_SET_add: a known name gets the value as PARAM_addValue stores it; an
   * unknown name leaves every parameter alone and goes to the typo list when
   * it has suggestions, to the unknown list otherwise.
   */
  function AddTo(cfg: seq<Entry>, s: Snapshot, name: string, value: Option<string>,
                 source: Option<string>, priority: int): (r: (Snapshot, Status))
    requires WellFormed(cfg, s)
    ensures WellFormed(cfg, r.0)
  {
    match Lookup(cfg, name)
    case Some(k) =>
      var o := AddOutcome(cfg[k].controls, s.lists[k], value, source, priority);
      (s.(lists := s.lists[k := o.0]), o.1)
    case None =>
      var stray := Stray(name, value, source, priority);
      if Typo.IsTypo(name, NamesOf(cfg)) then (s.(typos := s.typos + [stray]), ParameterIsTypo)
      else (s.(unknowns := s.unknowns + [stray]), ParameterIsUnknown)
  }

  /** The values of the parameter answering to a name; nothing when none does. */
  function ListOf(cfg: seq<Entry>, lists: seq<seq<Value>>, name: string): seq<Value>
    requires |lists| == |cfg|
  {
    match Lookup(cfg, name)
    case Some(k) => lists[k]
    case None => []
  }

  /** Every name of the list is a parameter of the set. */
  predicate Known(cfg: seq<Entry>, names: seq<string>)
  {
    forall i :: 0 <= i < |names| ==> Lookup(cfg, names[i]).Some?
  }

  /** What a query with a source and a priority selector sees of each parameter: its matches. */
  function Views(lists: seq<seq<Value>>, source: Option<string>, sel: PrioritySelector): (r: seq<seq<Value>>)
    ensures |r| == |lists|
  {
    seq(|lists|, k requires 0 <= k < |lists| => Matches(lists[k], source, sel))
  }

  /** What a multi-name query indexes: the views of the named parameters, name after name. */
  function Gathered(cfg: seq<Entry>, views: seq<seq<Value>>, names: seq<string>): seq<Value>
    requires |views| == |cfg|
  {
    if |names| == 0 then []
    else Gathered(cfg, views, names[..|names| - 1]) + ListOf(cfg, views, names[|names| - 1])
  }

  /** How many values, matching or not, the named parameters hold in all. */
  function Held(cfg: seq<Entry>, lists: seq<seq<Value>>, names: seq<string>): nat
    requires |lists| == |cfg|
  {
    if |names| == 0 then 0
    else Held(cfg, lists, names[..|names| - 1]) + |ListOf(cfg, lists, names[|names| - 1])|
  }

  /**
   * PARAM_SET_getStr over a name list: an unknown name fails the query, no
   * value in any named parameter is PST_PARAMETER_EMPTY, and otherwise `at`
   * indexes the matches of the named parameters, name after name.
   */
  function StrAt(cfg: seq<Entry>, lists: seq<seq<Value>>, names: seq<string>,
                 source: Option<string>, sel: PrioritySelector, at: Index): Result<Value>
    requires |lists| == |cfg|
  {
    if !Known(cfg, names) then Failure(ParameterNotFound)
    else if Held(cfg, lists, names) == 0 then Failure(ParameterEmpty)
    else
      var g := Gathered(cfg, Views(lists, source, sel), names);
      match Slot(at, |g|)
      case Failure(e) => Failure(e)
      case Success(i) => Success(g[i])
  }

  /** PARAM_SET_isSetByName: every name is a parameter holding a value, valid or not. */
  predicate AllSet(cfg: seq<Entry>, lists: seq<seq<Value>>, names: seq<string>)
    requires |lists| == |cfg|
  {
    forall i :: 0 <= i < |names| ==> Lookup(cfg, names[i]).Some? && ListOf(cfg, lists, names[i]) != []
  }

  /** PARAM_SET_isOneOfSetByName: some name is a parameter holding a value. */
  predicate OneSet(cfg: seq<Entry>, lists: seq<seq<Value>>, names: seq<string>)
    requires |lists| == |cfg|
  {
    exists i :: 0 <= i < |names| && ListOf(cfg, lists, names[i]) != []
  }

  /** Parameter k is one of those the names answer to. */
  predicate Named(cfg: seq<Entry>, names: seq<string>, k: nat)
  {
    exists j :: 0 <= j < |names| && Lookup(cfg, names[j]) == Some(k)
  }

  /**
   * PARAM_SET_clearParameter: every named parameter loses all its values and
   * stays in the set; one unknown name fails the call before anything changes.
   */
  function ClearNamed(cfg: seq<Entry>, lists: seq<seq<Value>>, names: seq<string>): (r: (seq<seq<Value>>, Status))
    requires |lists| == |cfg|
    ensures |r.0| == |lists|
  {
    if !Known(cfg, names) then (lists, ParameterNotFound)
    else (Emptied(cfg, lists, names), Ok)
  }

  /** The value lists with those of the named parameters emptied, name after name. */
  function Emptied(cfg: seq<Entry>, lists: seq<seq<Value>>, names: seq<string>): (r: seq<seq<Value>>)
    requires |lists| == |cfg|
    ensures |r| == |lists|
  {
    if |names| == 0 then lists
    else
      var pre := Emptied(cfg, lists, names[..|names| - 1]);
      match Lookup(cfg, names[|names| - 1])
      case Some(k) => pre[k := []]
      case None => pre
  }

  /** Which parameter holds gathered match `g`, and its index within that parameter's view. */
  function Target(cfg: seq<Entry>, views: seq<seq<Value>>, names: seq<string>, g: nat): (r: Option<(nat, nat)>)
    requires |views| == |cfg|
    ensures r.Some? ==> r.value.0 < |views|
  {
    if |names| == 0 then None
    else
      var init := names[..|names| - 1];
      match Target(cfg, views, init, g)
      case Some(t) => Some(t)
      case None =>
        var c := |Gathered(cfg, views, init)|;
        match Lookup(cfg, names[|names| - 1])
        case None => None
        case Some(k) => if c <= g < c + |views[k]| then Some((k, g - c)) else None
  }

  /**
   * PARAM_SET_clearValue: removes the value getStr would return for the same
   * names, constraints and index, or fails as getStr does and changes nothing.
   */
  function ClearAt(cfg: seq<Entry>, lists: seq<seq<Value>>, names: seq<string>,
                   source: Option<string>, sel: PrioritySelector, at: Index): (r: (seq<seq<Value>>, Status))
    requires |lists| == |cfg|
    ensures |r.0| == |lists|
  {
    if !Known(cfg, names) then (lists, ParameterNotFound)
    else if Held(cfg, lists, names) == 0 then (lists, ParameterEmpty)
    else
      var views := Views(lists, source, sel);
      match Slot(at, |Gathered(cfg, views, names)|)
      case Failure(e) => (lists, e)
      case Success(i) =>
        match Target(cfg, views, names, i)
        case None => (lists, ParameterValueNotFound)
        case Some(t) =>
          var m := lists[t.0];
          match Locate(m, Selection(m, source, sel, false), At(t.1))
          case Success(p) => (lists[t.0 := RemoveAt(m, p)], Ok)
          case Failure(e) => (lists, e)
  }

  // ---------------------------------------------------------------------
  // Properties
  // ---------------------------------------------------------------------

  /** Adding under a known name is adding to that parameter's list. */
  lemma AddToFound(cfg: seq<Entry>, s: Snapshot, name: string, value: Option<string>,
                   source: Option<string>, priority: int)
    requires WellFormed(cfg, s) && Lookup(cfg, name).Some?
    ensures var k := Lookup(cfg, name).value;
      var o := AddOutcome(cfg[k].controls, s.lists[k], value, source, priority);
      AddTo(cfg, s, name, value, source, priority) == (s.(lists := s.lists[k := o.0]), o.1)
  {
  }

  /** Adding under an unknown name files the name and touches no parameter. */
  lemma AddToStray(cfg: seq<Entry>, s: Snapshot, name: string, value: Option<string>,
                   source: Option<string>, priority: int)
    requires WellFormed(cfg, s) && Lookup(cfg, name).None?
    ensures var stray := Stray(name, value, source, priority);
      AddTo(cfg, s, name, value, source, priority)
        == if Typo.IsTypo(name, NamesOf(cfg)) then (s.(typos := s.typos + [stray]), ParameterIsTypo)
           else (s.(unknowns := s.unknowns + [stray]), ParameterIsUnknown)
  {
  }

  /** Lookup finds the first parameter answering to the name, and nothing when none does. */
  lemma {:induction false} LookupMeaning(cfg: seq<Entry>, name: string)
    ensures Lookup(cfg, name).Some? ==>
      Answers(cfg[Lookup(cfg, name).value], name)
      && forall j :: 0 <= j < Lookup(cfg, name).value ==> !Answers(cfg[j], name)
    ensures Lookup(cfg, name).None? <==> forall j :: 0 <= j < |cfg| ==> !Answers(cfg[j], name)
  {
    LookupFromMeaning(cfg, name, 0);
  }

  lemma {:induction false} LookupFromMeaning(cfg: seq<Entry>, name: string, i: nat)
    requires i <= |cfg|
    ensures LookupFrom(cfg, name, i).Some? ==>
      Answers(cfg[LookupFrom(cfg, name, i).value], name)
      && forall j :: i <= j < LookupFrom(cfg, name, i).value ==> !Answers(cfg[j], name)
    ensures LookupFrom(cfg, name, i).None? <==> forall j :: i <= j < |cfg| ==> !Answers(cfg[j], name)
    decreases |cfg| - i
  {
    if i < |cfg| && !Answers(cfg[i], name) {
      LookupFromMeaning(cfg, name, i + 1);
    }
  }

  /**
   * A name that is not in the set changes no parameter: the report goes to
   * exactly one of the typo and unknown lists, to the typo list exactly when
   * the smallest difference from the names is under 90.
   */
  lemma AddUnknownName(cfg: seq<Entry>, s: Snapshot, name: string, value: Option<string>,
                       source: Option<string>, priority: int)
    requires WellFormed(cfg, s) && |cfg| > 0
    requires forall j :: 0 <= j < |cfg| ==> !Answers(cfg[j], name)
    ensures var (t, st) := AddTo(cfg, s, name, value, source, priority);
      var stray := Stray(name, value, source, priority);
      t.lists == s.lists
      && (st == ParameterIsTypo <==> Typo.SmallestDifference(name, NamesOf(cfg)) < 90)
      && (st == ParameterIsTypo ==> t.typos == s.typos + [stray] && t.unknowns == s.unknowns)
      && (st != ParameterIsTypo ==> st == ParameterIsUnknown && t.unknowns == s.unknowns + [stray] && t.typos == s.typos)
  {
    LookupMeaning(cfg, name);
    Typo.TypoIffCloseEnough(name, NamesOf(cfg));
  }

  /**
   * A known name touches only its own parameter and neither report list; a
   * value failing its format or content check is still stored and the add
   * succeeds.
   */
  lemma AddKnownName(cfg: seq<Entry>, s: Snapshot, k: nat, name: string, value: Option<string>,
                     source: Option<string>, priority: int)
    requires WellFormed(cfg, s) && k < |cfg| && Answers(cfg[k], name)
    requires forall j :: 0 <= j < k ==> !Answers(cfg[j], name)
    ensures var (t, st) := AddTo(cfg, s, name, value, source, priority);
      t.typos == s.typos && t.unknowns == s.unknowns
      && (forall j :: 0 <= j < |cfg| && j != k ==> t.lists[j] == s.lists[j])
      && (st == Ok <==> ConvertText(cfg[k].controls, value).Success? && InRange(priority))
      && (st == Ok ==> t.lists[k] == s.lists[k] + [Checked(cfg[k].controls, ConvertText(cfg[k].controls, value).value, source, priority)])
      && (st != Ok ==> t.lists[k] == s.lists[k])
  {
    LookupMeaning(cfg, name);
    AddOutcomeMeaning(cfg[k].controls, s.lists[k], value, source, priority);
  }

  /** The named parameters hold no value at all exactly when the held total is zero. */
  lemma {:induction false} HeldZero(cfg: seq<Entry>, lists: seq<seq<Value>>, names: seq<string>)
    requires |lists| == |cfg|
    ensures Held(cfg, lists, names) == 0 <==> forall i :: 0 <= i < |names| ==> ListOf(cfg, lists, names[i]) == []
  {
    if |names| > 0 {
      var init := names[..|names| - 1];
      HeldZero(cfg, lists, init);
      assert forall i :: 0 <= i < |init| ==> init[i] == names[i];
    }
  }

  /** With one name, getStr is the parameter's own getElement. */
  lemma StrAtOneName(cfg: seq<Entry>, lists: seq<seq<Value>>, name: string, k: nat,
                     source: Option<string>, sel: PrioritySelector, at: Index)
    requires |lists| == |cfg| && Lookup(cfg, name) == Some(k)
    ensures StrAt(cfg, lists, [name], source, sel, at) == Extract(lists[k], source, sel, at)
  {
    var views := Views(lists, source, sel);
    assert [name][..0] == [];
    assert Gathered(cfg, views, [name]) == [] + views[k];
    assert [] + views[k] == Matches(lists[k], source, sel);
    assert Held(cfg, lists, [name]) == |lists[k]|;
    ExtractIsMatch(lists[k], source, sel, at);
  }

  /** One more name adds its parameter's view at the end. */
  lemma GatheredSnoc(cfg: seq<Entry>, views: seq<seq<Value>>, names: seq<string>, name: string)
    requires |views| == |cfg|
    ensures Gathered(cfg, views, names + [name]) == Gathered(cfg, views, names) + ListOf(cfg, views, name)
  {
    var all := names + [name];
    assert all[..|all| - 1] == names;
  }

  /** One step of a walk over a name list: the prefix grows by one name. */
  lemma GatheredStep(cfg: seq<Entry>, views: seq<seq<Value>>, names: seq<string>, i: nat)
    requires |views| == |cfg| && i < |names|
    ensures Gathered(cfg, views, names[..i + 1]) == Gathered(cfg, views, names[..i]) + ListOf(cfg, views, names[i])
  {
    assert names[..i + 1][..i] == names[..i];
  }

  /** One step of a walk over a name list: the held count grows by the new name's values. */
  lemma HeldStep(cfg: seq<Entry>, lists: seq<seq<Value>>, names: seq<string>, i: nat)
    requires |lists| == |cfg| && i < |names|
    ensures Held(cfg, lists, names[..i + 1]) == Held(cfg, lists, names[..i]) + |ListOf(cfg, lists, names[i])|
  {
    assert names[..i + 1][..i] == names[..i];
  }

  /** One step of a walk over a name list: the prefix stays known exactly when the new name is known. */
  lemma KnownStep(cfg: seq<Entry>, names: seq<string>, i: nat)
    requires i < |names|
    ensures Known(cfg, names[..i + 1]) <==> Known(cfg, names[..i]) && Lookup(cfg, names[i]).Some?
  {
    var pre, post := names[..i], names[..i + 1];
    assert post[i] == names[i];
    if Known(cfg, pre) && Lookup(cfg, names[i]).Some? {
      forall j | 0 <= j < i + 1
        ensures Lookup(cfg, post[j]).Some?
      {
        if j < i {
          assert post[j] == pre[j];
        }
      }
    }
    if Known(cfg, post) {
      assert Lookup(cfg, post[i]).Some?;
      forall j | 0 <= j < i
        ensures Lookup(cfg, pre[j]).Some?
      {
        assert post[j] == pre[j];
        assert Lookup(cfg, post[j]).Some?;
      }
    }
  }

  /** A walk over a name list that meets an unknown name has found a name list that is not known. */
  lemma UnknownStops(cfg: seq<Entry>, names: seq<string>, i: nat)
    requires i < |names| && Lookup(cfg, names[i]).None?
    ensures !Known(cfg, names)
  {
  }

  /** A walk over a name list names one more parameter at each step, if the new name is known. */
  lemma NamedStep(cfg: seq<Entry>, names: seq<string>, i: nat)
    requires i < |names|
    ensures forall m: nat :: Named(cfg, names[..i + 1], m) <==> Named(cfg, names[..i], m) || Lookup(cfg, names[i]) == Some(m)
  {
    var pre, post := names[..i], names[..i + 1];
    assert forall j :: 0 <= j < i ==> post[j] == pre[j];
    assert post[i] == names[i];
    forall m: nat
      ensures Named(cfg, post, m) <==> Named(cfg, pre, m) || Lookup(cfg, names[i]) == Some(m)
    {
      if Named(cfg, post, m) {
        var j :| 0 <= j < i + 1 && Lookup(cfg, post[j]) == Some(m);
        if j < i {
          assert Lookup(cfg, pre[j]) == Some(m);
        }
      }
      if Named(cfg, pre, m) {
        var j :| 0 <= j < i && Lookup(cfg, pre[j]) == Some(m);
        assert Lookup(cfg, post[j]) == Some(m);
      }
      if Lookup(cfg, names[i]) == Some(m) {
        assert Lookup(cfg, post[i]) == Some(m);
      }
    }
  }

  /** One step of a walk over a name list: the new name's parameter, if any, is emptied. */
  lemma EmptiedStep(cfg: seq<Entry>, lists: seq<seq<Value>>, names: seq<string>, i: nat)
    requires |lists| == |cfg| && i < |names|
    ensures var pre := Emptied(cfg, lists, names[..i]);
      Emptied(cfg, lists, names[..i + 1])
        == if Lookup(cfg, names[i]).Some? then pre[Lookup(cfg, names[i]).value := []] else pre
  {
    assert names[..i + 1][..i] == names[..i];
  }

  /** Emptying a name list empties exactly the parameters the names answer to. */
  lemma {:induction false} EmptiedMeaning(cfg: seq<Entry>, lists: seq<seq<Value>>, names: seq<string>)
    requires |lists| == |cfg|
    ensures forall k :: 0 <= k < |lists| ==>
      Emptied(cfg, lists, names)[k] == if Named(cfg, names, k) then [] else lists[k]
  {
    if |names| > 0 {
      var i := |names| - 1;
      assert names[..i + 1] == names;
      EmptiedMeaning(cfg, lists, names[..i]);
      NamedStep(cfg, names, i);
    }
  }

  /** Gathering over two name lists joins their views. */
  lemma {:induction false} GatheredConcat(cfg: seq<Entry>, views: seq<seq<Value>>, a: seq<string>, b: seq<string>)
    requires |views| == |cfg|
    ensures Gathered(cfg, views, a + b) == Gathered(cfg, views, a) + Gathered(cfg, views, b)
    decreases |b|
  {
    if |b| == 0 {
      assert a + b == a;
    } else {
      var init, last := b[..|b| - 1], b[|b| - 1];
      var m := ListOf(cfg, views, last);
      var ga, gi := Gathered(cfg, views, a), Gathered(cfg, views, init);
      calc {
        Gathered(cfg, views, a + b);
        { assert a + b == (a + init) + [last]; }
        Gathered(cfg, views, (a + init) + [last]);
        { GatheredSnoc(cfg, views, a + init, last); }
        Gathered(cfg, views, a + init) + m;
        { GatheredConcat(cfg, views, a, init); }
        (ga + gi) + m;
        ga + (gi + m);
        { GatheredSnoc(cfg, views, init, last); assert init + [last] == b; }
        ga + Gathered(cfg, views, b);
      }
    }
  }

  /** The values held under two name lists add up. */
  lemma {:induction false} HeldConcat(cfg: seq<Entry>, lists: seq<seq<Value>>, a: seq<string>, b: seq<string>)
    requires |lists| == |cfg|
    ensures Held(cfg, lists, a + b) == Held(cfg, lists, a) + Held(cfg, lists, b)
    decreases |b|
  {
    if |b| == 0 {
      assert a + b == a;
    } else {
      var init := b[..|b| - 1];
      assert (a + b)[..|a + b| - 1] == a + init;
      HeldConcat(cfg, lists, a, init);
    }
  }

  /** Known names stay known on both sides of a split. */
  lemma KnownConcat(cfg: seq<Entry>, a: seq<string>, b: seq<string>)
    ensures Known(cfg, a + b) <==> Known(cfg, a) && Known(cfg, b)
  {
    if Known(cfg, a) && Known(cfg, b) {
      forall i | 0 <= i < |a + b|
        ensures Lookup(cfg, (a + b)[i]).Some?
      {
        if i < |a| {
          assert (a + b)[i] == a[i];
          assert Lookup(cfg, a[i]).Some?;
        } else {
          assert (a + b)[i] == b[i - |a|];
          assert Lookup(cfg, b[i - |a|]).Some?;
        }
      }
    }
    if Known(cfg, a + b) {
      forall i | 0 <= i < |a|
        ensures Lookup(cfg, a[i]).Some?
      {
        assert (a + b)[i] == a[i];
        assert Lookup(cfg, (a + b)[i]).Some?;
      }
      forall i | 0 <= i < |b|
        ensures Lookup(cfg, b[i]).Some?
      {
        assert (a + b)[|a| + i] == b[i];
        assert Lookup(cfg, (a + b)[|a| + i]).Some?;
      }
    }
  }

  /** For known names holding values, getStr at a non-negative index is that gathered match, if there is one. */
  lemma StrAtIndex(cfg: seq<Entry>, lists: seq<seq<Value>>, names: seq<string>,
                   source: Option<string>, sel: PrioritySelector, i: nat)
    requires |lists| == |cfg| && Known(cfg, names) && Held(cfg, lists, names) > 0
    ensures var g := Gathered(cfg, Views(lists, source, sel), names);
      StrAt(cfg, lists, names, source, sel, At(i))
        == if i < |g| then Success(g[i]) else Failure(ParameterValueNotFound)
  {
  }

  /**
   * An index past the matches of the first name moves on to the following
   * names, whether or not the first one has values.
   */
  lemma StrAtMovesOn(cfg: seq<Entry>, lists: seq<seq<Value>>, first: string, rest: seq<string>,
                     source: Option<string>, sel: PrioritySelector, i: int)
    requires |lists| == |cfg| && Lookup(cfg, first).Some?
    requires Known(cfg, rest) && Held(cfg, lists, rest) > 0
    requires i >= |Matches(lists[Lookup(cfg, first).value], source, sel)|
    ensures StrAt(cfg, lists, [first] + rest, source, sel, At(i))
         == StrAt(cfg, lists, rest, source, sel, At(i - |Matches(lists[Lookup(cfg, first).value], source, sel)|))
  {
    var views := Views(lists, source, sel);
    var m := views[Lookup(cfg, first).value];
    assert m == Matches(lists[Lookup(cfg, first).value], source, sel);
    var g := Gathered(cfg, views, rest);
    var all := Gathered(cfg, views, [first] + rest);
    assert all == m + g by {
      assert [first][..0] == [];
      assert Gathered(cfg, views, [first]) == [] + m;
      assert [] + m == m;
      GatheredConcat(cfg, views, [first], rest);
    }
    assert Known(cfg, [first] + rest) && Held(cfg, lists, [first] + rest) > 0 by {
      HeldConcat(cfg, lists, [first], rest);
      KnownConcat(cfg, [first], rest);
      assert Known(cfg, [first]);
    }
    StrAtIndex(cfg, lists, [first] + rest, source, sel, i);
    StrAtIndex(cfg, lists, rest, source, sel, i - |m|);
    if i < |all| {
      assert all[i] == g[i - |m|];
    }
  }

  /**
   * One step of the walk PARAM_SET_clearValue makes: the next name either
   * holds the wanted match or moves the count of matches passed on.
   */
  lemma TargetStep(cfg: seq<Entry>, views: seq<seq<Value>>, names: seq<string>, i: nat, g: nat)
    requires |views| == |cfg| && i < |names|
    requires Target(cfg, views, names[..i], g).None?
    requires |Gathered(cfg, views, names[..i])| <= g
    ensures var c := |Gathered(cfg, views, names[..i])|;
      var n := |ListOf(cfg, views, names[i])|;
      |Gathered(cfg, views, names[..i + 1])| == c + n
      && (g < c + n ==>
            Lookup(cfg, names[i]).Some?
            && Target(cfg, views, names[..i + 1], g) == Some((Lookup(cfg, names[i]).value, g - c)))
      && (g >= c + n ==> Target(cfg, views, names[..i + 1], g).None?)
  {
    assert names[..i + 1][..i] == names[..i];
  }

  /**
   * The walk towards a target that exists: the next name either holds it or
   * leaves more names to look at.
   */
  lemma TargetAdvance(cfg: seq<Entry>, views: seq<seq<Value>>, names: seq<string>, i: nat, g: nat)
    requires |views| == |cfg| && i < |names|
    requires Target(cfg, views, names, g).Some?
    requires Target(cfg, views, names[..i], g).None?
    requires |Gathered(cfg, views, names[..i])| <= g
    ensures var c := |Gathered(cfg, views, names[..i])|;
      var n := |ListOf(cfg, views, names[i])|;
      (g < c + n ==>
         Lookup(cfg, names[i]).Some? && Target(cfg, views, names, g) == Some((Lookup(cfg, names[i]).value, g - c)))
      && (g >= c + n ==>
            i + 1 < |names| && |Gathered(cfg, views, names[..i + 1])| == c + n
            && Target(cfg, views, names[..i + 1], g).None?)
  {
    TargetStep(cfg, views, names, i, g);
    var c := |Gathered(cfg, views, names[..i])|;
    if g < c + |ListOf(cfg, views, names[i])| {
      TargetPrefix(cfg, views, names, i + 1, g);
    }
  }

  /** Before any value is located, clearing fails exactly as getStr does and changes nothing. */
  lemma ClearAtEarly(cfg: seq<Entry>, lists: seq<seq<Value>>, names: seq<string>,
                     source: Option<string>, sel: PrioritySelector, at: Index)
    requires |lists| == |cfg|
    ensures !Known(cfg, names) ==> ClearAt(cfg, lists, names, source, sel, at) == (lists, ParameterNotFound)
    ensures Known(cfg, names) && Held(cfg, lists, names) == 0
        ==> ClearAt(cfg, lists, names, source, sel, at) == (lists, ParameterEmpty)
    ensures var slot := Slot(at, |Gathered(cfg, Views(lists, source, sel), names)|);
      Known(cfg, names) && Held(cfg, lists, names) > 0 && slot.Failure?
      ==> ClearAt(cfg, lists, names, source, sel, at) == (lists, slot.error)
  {
  }

  /** Once the wanted match is located, clearing it is removing that value from its parameter. */
  lemma ClearAtFound(cfg: seq<Entry>, lists: seq<seq<Value>>, names: seq<string>,
                     source: Option<string>, sel: PrioritySelector, at: Index, g: nat, k: nat, j: nat)
    requires |lists| == |cfg| && Known(cfg, names) && Held(cfg, lists, names) > 0
    requires Slot(at, |Gathered(cfg, Views(lists, source, sel), names)|) == Success(g)
    requires Target(cfg, Views(lists, source, sel), names, g) == Some((k, j))
    ensures var m := lists[k];
      var loc := Locate(m, Selection(m, source, sel, false), At(j));
      ClearAt(cfg, lists, names, source, sel, at)
        == if loc.Success? then (lists[k := RemoveAt(m, loc.value)], Ok) else (lists, loc.error)
  {
  }

  /** A target found among some names stays the target when more names follow. */
  lemma {:induction false} TargetPrefix(cfg: seq<Entry>, views: seq<seq<Value>>, names: seq<string>, i: nat, g: nat)
    requires |views| == |cfg| && i <= |names|
    requires Target(cfg, views, names[..i], g).Some?
    ensures Target(cfg, views, names, g) == Target(cfg, views, names[..i], g)
    decreases |names| - i
  {
    if i < |names| {
      assert names[..i + 1][..i] == names[..i];
      TargetPrefix(cfg, views, names, i + 1, g);
    } else {
      assert names[..i] == names;
    }
  }

  /** A target exists only for an index below the number of gathered matches. */
  lemma {:induction false} TargetBelow(cfg: seq<Entry>, views: seq<seq<Value>>, names: seq<string>, g: nat)
    requires |views| == |cfg|
    requires Target(cfg, views, names, g).Some?
    ensures g < |Gathered(cfg, views, names)|
  {
    var init := names[..|names| - 1];
    if Target(cfg, views, init, g).Some? {
      TargetBelow(cfg, views, init, g);
    }
  }

  /**
   * Every gathered match of known names has a target, and the target names
   * that very value: the parameter holding it and its index within that
   * parameter's view.
   */
  lemma {:induction false} TargetIsGathered(cfg: seq<Entry>, views: seq<seq<Value>>, names: seq<string>, g: nat)
    requires |views| == |cfg| && Known(cfg, names)
    requires g < |Gathered(cfg, views, names)|
    ensures Target(cfg, views, names, g).Some?
    ensures var t := Target(cfg, views, names, g).value;
      t.1 < |views[t.0]| && views[t.0][t.1] == Gathered(cfg, views, names)[g]
  {
    var init := names[..|names| - 1];
    assert Known(cfg, init) by {
      forall i | 0 <= i < |init|
        ensures Lookup(cfg, init[i]).Some?
      {
        assert init[i] == names[i];
        assert Lookup(cfg, names[i]).Some?;
      }
    }
    assert Lookup(cfg, names[|names| - 1]).Some?;
    var acc := Gathered(cfg, views, init);
    if g < |acc| {
      TargetIsGathered(cfg, views, init, g);
    } else if Target(cfg, views, init, g).Some? {
      TargetBelow(cfg, views, init, g);
    }
  }

  /**
   * clearValue removes exactly the value getStr returns for the same
   * arguments, from the parameter holding it, and fails with getStr's error
   * otherwise, changing nothing.
   */
  lemma ClearAtRemovesWhatStrAtReturns(cfg: seq<Entry>, lists: seq<seq<Value>>, names: seq<string>,
                                       source: Option<string>, sel: PrioritySelector, at: Index)
    requires |lists| == |cfg|
    ensures var (after, st) := ClearAt(cfg, lists, names, source, sel, at);
      var got := StrAt(cfg, lists, names, source, sel, at);
      (st == Ok <==> got.Success?)
      && (st != Ok ==> after == lists && st == got.error)
      && (st == Ok ==> exists k, p :: 0 <= k < |lists| && 0 <= p < |lists[k]|
                         && after == lists[k := RemoveAt(lists[k], p)] && lists[k][p] == got.value)
  {
    ClearAtEarly(cfg, lists, names, source, sel, at);
    if Known(cfg, names) && Held(cfg, lists, names) != 0
       && Slot(at, |Gathered(cfg, Views(lists, source, sel), names)|).Success? {
      ClearAtHit(cfg, lists, names, source, sel, at);
    }
  }

  /** When getStr finds a value, clearValue removes that very value from the parameter holding it. */
  lemma ClearAtHit(cfg: seq<Entry>, lists: seq<seq<Value>>, names: seq<string>,
                   source: Option<string>, sel: PrioritySelector, at: Index)
    requires |lists| == |cfg| && Known(cfg, names) && Held(cfg, lists, names) != 0
    requires Slot(at, |Gathered(cfg, Views(lists, source, sel), names)|).Success?
    ensures var (after, st) := ClearAt(cfg, lists, names, source, sel, at);
      var got := StrAt(cfg, lists, names, source, sel, at);
      st == Ok && got.Success?
      && exists k, p :: 0 <= k < |lists| && 0 <= p < |lists[k]|
                        && after == lists[k := RemoveAt(lists[k], p)] && lists[k][p] == got.value
  {
    var views := Views(lists, source, sel);
    var g := Gathered(cfg, views, names);
    var i := Slot(at, |g|).value;
    assert StrAt(cfg, lists, names, source, sel, at) == Success(g[i]);
    TargetIsGathered(cfg, views, names, i);
    var t := Target(cfg, views, names, i).value;
    var m := lists[t.0];
    assert views[t.0] == Matches(m, source, sel);
    ClearAtFound(cfg, lists, names, source, sel, at, i, t.0, t.1);
    ExtractIsMatch(m, source, sel, At(t.1));
    var loc := Locate(m, Selection(m, source, sel, false), At(t.1));
    assert loc.Success? && m[loc.value] == g[i];
  }

  /** clearParameter empties exactly the named parameters and keeps every parameter in the set. */
  lemma ClearNamedMeaning(cfg: seq<Entry>, lists: seq<seq<Value>>, names: seq<string>)
    requires |lists| == |cfg|
    ensures var (after, st) := ClearNamed(cfg, lists, names);
      (st == Ok <==> Known(cfg, names))
      && (st != Ok ==> st == ParameterNotFound && after == lists)
      && (st == Ok ==> forall i :: 0 <= i < |names| ==> ListOf(cfg, after, names[i]) == [])
      && (forall k :: 0 <= k < |lists| && !Named(cfg, names, k) ==> after[k] == lists[k])
  {
    var (after, st) := ClearNamed(cfg, lists, names);
    EmptiedMeaning(cfg, lists, names);
    if st == Ok {
      forall i | 0 <= i < |names|
        ensures ListOf(cfg, after, names[i]) == []
      {
        assert Lookup(cfg, names[i]).Some?;
        var k := Lookup(cfg, names[i]).value;
        assert Named(cfg, names, k);
      }
    }
  }

  /** isSetByName implies isOneOfSetByName for a non-empty name list; an unknown name is never set. */
  lemma AllSetImpliesOneSet(cfg: seq<Entry>, lists: seq<seq<Value>>, names: seq<string>)
    requires |lists| == |cfg|
    ensures AllSet(cfg, lists, names) && |names| > 0 ==> OneSet(cfg, lists, names)
    ensures !Known(cfg, names) ==> !AllSet(cfg, lists, names)
  {
    if AllSet(cfg, lists, names) && |names| > 0 {
      assert ListOf(cfg, lists, names[0]) != [];
    }
    if !Known(cfg, names) {
      var i :| 0 <= i < |names| && Lookup(cfg, names[i]).None?;
    }
  }

  // ---------------------------------------------------------------------
  // The set
  // ---------------------------------------------------------------------

  function ConfigOf(ps: seq<Param>): (r: seq<Entry>)
    reads set p | p in ps
    ensures |r| == |ps|
    ensures forall i :: 0 <= i < |ps| ==>
      r[i] == Entry(ps[i].name, ps[i].alias, ps[i].controls, ps[i].parseOption)
  {
    if |ps| == 0 then []
    else
      var p := ps[|ps| - 1];
      ConfigOf(ps[..|ps| - 1]) + [Entry(p.name, p.alias, p.controls, p.parseOption)]
  }

  function ValuesOf(ps: seq<Param>): (r: seq<seq<Value>>)
    reads set p | p in ps :: p.list
    ensures |r| == |ps|
    ensures forall i :: 0 <= i < |ps| ==> r[i] == ps[i].list.values
  {
    if |ps| == 0 then [] else ValuesOf(ps[..|ps| - 1]) + [ps[|ps| - 1].list.values]
  }

  /** Replacing one parameter's values changes that entry of the value snapshot only. */
  lemma ValuesUpdated(ps: seq<Param>, k: nat, before: seq<seq<Value>>)
    requires k < |ps| && |before| == |ps|
    requires forall j :: 0 <= j < |ps| && j != k ==> ps[j].list.values == before[j]
    ensures ValuesOf(ps) == before[k := ps[k].list.values]
  {
  }

  class ParamSet {
    const params: seq<Param>
    var typos: seq<Stray>
    var unknowns: seq<Stray>

    ghost function Lists(): set<ValueList>
    {
      set p | p in params :: p.list
    }

    ghost function Objects(): set<Param>
    {
      set p | p in params
    }

    /** Each parameter has its own value list and a non-empty name. */
    ghost predicate Valid()
      reads Objects(), Lists()
    {
      (forall i, j :: 0 <= i < j < |params| ==> params[i].list != params[j].list)
      && (forall i :: 0 <= i < |params| ==> params[i].Valid() && |params[i].name| > 0)
    }

    function Config(): seq<Entry>
      reads Objects()
    {
      ConfigOf(params)
    }

    function Values(): seq<seq<Value>>
      reads Lists()
    {
      ValuesOf(params)
    }

    function State(): Snapshot
      reads this, Lists()
    {
      Snapshot(Values(), typos, unknowns)
    }

    /** PARAM_SET_new over parameters already built, with empty report lists. */
    constructor (params: seq<Param>)
      requires forall i, j :: 0 <= i < j < |params| ==> params[i].list != params[j].list
      requires forall i :: 0 <= i < |params| ==> params[i].Valid() && |params[i].name| > 0
      ensures Valid() && this.params == params && typos == [] && unknowns == []
    {
      this.params := params;
      typos := [];
      unknowns := [];
    }

    lemma ConfigNames()
      requires Valid()
      ensures WellFormed(Config(), State())
    {
    }

    /** Walks the parameters for the first that answers to the name. */
    method FindParam(name: string) returns (r: Option<nat>)
      ensures r == Lookup(Config(), name)
    {
      var i := 0;
      while i < |params|
        invariant 0 <= i <= |params|
        invariant forall j :: 0 <= j < i ==> !Answers(Config()[j], name)
      {
        if params[i].name == name || params[i].alias == Some(name) {
          assert Answers(Config()[i], name);
          LookupMeaning(Config(), name);
          return Some(i);
        }
        i := i + 1;
      }
      LookupMeaning(Config(), name);
      return None;
    }

    /** Adds a value to parameter k; every other parameter keeps its values. */
    method AddValueAt(k: nat, value: Option<string>, source: Option<string>, priority: int) returns (st: Status)
      requires Valid() && k < |params|
      modifies params[k].list
      ensures Valid() && Config() == old(Config())
      ensures var o := AddOutcome(old(Config())[k].controls, old(Values())[k], value, source, priority);
        Values() == old(Values())[k := o.0] && st == o.1
    {
      ghost var before := Values();
      st := params[k].AddValue(value, source, priority);
      ValuesUpdated(params, k, before);
    }

    /** Removes one value from parameter k; every other parameter keeps its values. */
    method ClearValueAt(k: nat, source: Option<string>, sel: PrioritySelector, at: Index) returns (st: Status)
      requires Valid() && k < |params|
      modifies params[k].list
      ensures Valid() && Config() == old(Config())
      ensures var m := old(Values())[k];
        match Locate(m, Selection(m, source, sel, false), at)
        case Success(p) => Values() == old(Values())[k := RemoveAt(m, p)] && st == Ok
        case Failure(e) => Values() == old(Values()) && st == e
    {
      ghost var before := Values();
      st := params[k].ClearValue(source, sel, at);
      ValuesUpdated(params, k, before);
    }

    /** Empties parameter k; every other parameter keeps its values. */
    method ClearAllAt(k: nat)
      requires Valid() && k < |params|
      modifies params[k].list
      ensures Valid() && Config() == old(Config())
      ensures Values() == old(Values())[k := []]
    {
      ghost var before := Values();
      params[k].ClearAll();
      ValuesUpdated(params, k, before);
    }

    /** PARAM_SET_add. */
    method Add(name: string, value: Option<string>, source: Option<string>, priority: int) returns (st: Status)
      requires Valid()
      modifies this, Lists()
      ensures Valid()
      ensures (State(), st) == AddTo(old(Config()), old(State()), name, value, source, priority)
    {
      ConfigNames();
      var found := FindParam(name);
      if found.Some? {
        st := AddFound(found.value, name, value, source, priority);
      } else {
        st := AddStray(name, value, source, priority);
      }
    }

    /** PARAM_SET_add for a name that parameter k answers to first. */
    method AddFound(k: nat, name: string, value: Option<string>, source: Option<string>, priority: int) returns (st: Status)
      requires Valid() && WellFormed(Config(), State()) && Lookup(Config(), name) == Some(k)
      modifies Lists()
      ensures Valid()
      ensures (State(), st) == AddTo(old(Config()), old(State()), name, value, source, priority)
    {
      AddToFound(Config(), State(), name, value, source, priority);
      st := AddValueAt(k, value, source, priority);
    }

    /** PARAM_SET_add for a name no parameter answers to. */
    method AddStray(name: string, value: Option<string>, source: Option<string>, priority: int) returns (st: Status)
      requires Valid() && WellFormed(Config(), State()) && Lookup(Config(), name).None?
      modifies this
      ensures Valid()
      ensures (State(), st) == AddTo(old(Config()), old(State()), name, value, source, priority)
    {
      AddToStray(Config(), State(), name, value, source, priority);
      var stray := Stray(name, value, source, priority);
      if Typo.IsTypo(name, NamesOf(Config())) {
        typos := typos + [stray];
        st := ParameterIsTypo;
      } else {
        unknowns := unknowns + [stray];
        st := ParameterIsUnknown;
      }
    }

    /** Collects the matches of every named parameter, name after name, and the number of values they hold. */
    method Collect(names: seq<string>, source: Option<string>, sel: PrioritySelector)
      returns (known: bool, acc: seq<Value>, total: nat)
      ensures known <==> Known(Config(), names)
      ensures known ==> acc == Gathered(Config(), Views(Values(), source, sel), names) && total == Held(Config(), Values(), names)
    {
      ghost var cfg, lists := Config(), Values();
      ghost var views := Views(lists, source, sel);
      acc, total := [], 0;
      var i := 0;
      while i < |names|
        invariant 0 <= i <= |names|
        invariant Known(cfg, names[..i])
        invariant acc == Gathered(cfg, views, names[..i]) && total == Held(cfg, lists, names[..i])
      {
        var k := FindParam(names[i]);
        if k.None? {
          UnknownStops(cfg, names, i);
          return false, [], 0;
        }
        GatheredStep(cfg, views, names, i);
        HeldStep(cfg, lists, names, i);
        KnownStep(cfg, names, i);
        var m := params[k.value].list.values;
        acc := acc + Matches(m, source, sel);
        total := total + |m|;
        i := i + 1;
      }
      assert names[..i] == names;
      known := true;
    }

    /** PARAM_SET_getStr (the value, not only its text). */
    method GetStr(names: seq<string>, source: Option<string>, sel: PrioritySelector, at: Index)
      returns (r: Result<Value>)
      ensures r == StrAt(Config(), Values(), names, source, sel, at)
    {
      var known, g, total := Collect(names, source, sel);
      if !known {
        return Failure(ParameterNotFound);
      }
      if total == 0 {
        return Failure(ParameterEmpty);
      }
      match Slot(at, |g|)
      case Failure(e) =>
        r := Failure(e);
      case Success(i) =>
        r := Success(g[i]);
    }

    /** PARAM_SET_getValueCount: on failure the count is left at zero. */
    method GetValueCount(names: seq<string>, source: Option<string>, sel: PrioritySelector)
      returns (st: Status, count: nat)
      ensures Known(Config(), names) ==> st == Ok && count == |Gathered(Config(), Views(Values(), source, sel), names)|
      ensures !Known(Config(), names) ==> st == ParameterNotFound && count == 0
    {
      var known, g, _ := Collect(names, source, sel);
      if !known {
        return ParameterNotFound, 0;
      }
      return Ok, |g|;
    }

    /** PARAM_SET_isSetByName. */
    method IsSetByName(names: seq<string>) returns (b: bool)
      ensures b <==> AllSet(Config(), Values(), names)
    {
      var i := 0;
      while i < |names|
        invariant 0 <= i <= |names|
        invariant forall j :: 0 <= j < i ==>
          Lookup(Config(), names[j]).Some? && ListOf(Config(), Values(), names[j]) != []
      {
        var k := FindParam(names[i]);
        if k.None? || |params[k.value].list.values| == 0 {
          return false;
        }
        i := i + 1;
      }
      return true;
    }

    /** PARAM_SET_isOneOfSetByName. */
    method IsOneOfSetByName(names: seq<string>) returns (b: bool)
      ensures b <==> OneSet(Config(), Values(), names)
    {
      var i := 0;
      while i < |names|
        invariant 0 <= i <= |names|
        invariant forall j :: 0 <= j < i ==> ListOf(Config(), Values(), names[j]) == []
      {
        var k := FindParam(names[i]);
        if k.Some? && |params[k.value].list.values| > 0 {
          assert ListOf(Config(), Values(), names[i]) != [];
          return true;
        }
        i := i + 1;
      }
      return false;
    }

    /** Whether every name is a parameter of the set. */
    method AllKnown(names: seq<string>) returns (b: bool)
      ensures b <==> Known(Config(), names)
    {
      var i := 0;
      while i < |names|
        invariant 0 <= i <= |names|
        invariant Known(Config(), names[..i])
      {
        var k := FindParam(names[i]);
        if k.None? {
          UnknownStops(Config(), names, i);
          return false;
        }
        KnownStep(Config(), names, i);
        i := i + 1;
      }
      assert names[..i] == names;
      return true;
    }

    /** PARAM_SET_clearParameter. */
    method ClearParameter(names: seq<string>) returns (st: Status)
      requires Valid()
      modifies Lists()
      ensures Valid() && Config() == old(Config())
      ensures (Values(), st) == ClearNamed(old(Config()), old(Values()), names)
    {
      var known := AllKnown(names);
      if !known {
        return ParameterNotFound;
      }
      EmptyNamed(names);
      st := Ok;
    }

    /** Empties, name after name, the parameters the names answer to. */
    method EmptyNamed(names: seq<string>)
      requires Valid()
      modifies Lists()
      ensures Valid() && Config() == old(Config())
      ensures Values() == Emptied(old(Config()), old(Values()), names)
    {
      ghost var cfg, before := Config(), Values();
      var i := 0;
      assert names[..0] == [];
      while i < |names|
        invariant 0 <= i <= |names|
        invariant Valid() && Config() == cfg
        invariant Values() == Emptied(cfg, before, names[..i])
      {
        EmptiedStep(cfg, before, names, i);
        EmptyName(names[i]);
        i := i + 1;
      }
      assert names[..i] == names;
    }

    /** Empties the parameter answering to the name, if there is one. */
    method EmptyName(name: string)
      requires Valid()
      modifies Lists()
      ensures Valid() && Config() == old(Config())
      ensures var k := Lookup(old(Config()), name);
        Values() == if k.Some? then old(Values())[k.value := []] else old(Values())
    {
      var k := FindParam(name);
      if k.Some? {
        ClearAllAt(k.value);
      }
    }

    /** PARAM_SET_clearValue. */
    method ClearValue(names: seq<string>, source: Option<string>, sel: PrioritySelector, at: Index)
      returns (st: Status)
      requires Valid()
      modifies Lists()
      ensures Valid()
      ensures (Values(), st) == ClearAt(old(Config()), old(Values()), names, source, sel, at)
    {
      ghost var cfg, before := Config(), Values();
      ClearAtEarly(cfg, before, names, source, sel, at);
      var known, g, total := Collect(names, source, sel);
      if !known {
        return ParameterNotFound;
      }
      if total == 0 {
        return ParameterEmpty;
      }
      var slot := Slot(at, |g|);
      if slot.Failure? {
        return slot.error;
      }
      st := ClearGathered(names, source, sel, at, slot.value);
    }

    /** PARAM_SET_clearValue once the index is known to pick gathered match `want`. */
    method ClearGathered(names: seq<string>, source: Option<string>, sel: PrioritySelector, at: Index, want: nat)
      returns (st: Status)
      requires Valid() && Known(Config(), names) && Held(Config(), Values(), names) > 0
      requires Slot(at, |Gathered(Config(), Views(Values(), source, sel), names)|) == Success(want)
      modifies Lists()
      ensures Valid()
      ensures (Values(), st) == ClearAt(old(Config()), old(Values()), names, source, sel, at)
    {
      ghost var cfg, before := Config(), Values();
      var views := Views(Values(), source, sel);
      TargetIsGathered(cfg, views, names, want);
      var k, j := FindTarget(Config(), views, names, want);
      ClearAtFound(cfg, before, names, source, sel, at, want, k, j);
      st := ClearValueAt(k, source, sel, At(j));
    }
  }

  /**
   * The walk of PARAM_SET_clearValue: name after name, it counts the
   * matches passed until the parameter holding gathered match `want`.
   */
  method FindTarget(cfg: seq<Entry>, views: seq<seq<Value>>, names: seq<string>, want: nat)
    returns (k: nat, j: nat)
    requires |views| == |cfg| && Target(cfg, views, names, want).Some?
    ensures Target(cfg, views, names, want) == Some((k, j))
  {
    var i, c := 0, 0;
    while true
      invariant 0 <= i < |names|
      invariant c == |Gathered(cfg, views, names[..i])| && c <= want
      invariant Target(cfg, views, names[..i], want).None?
      decreases |names| - i
    {
      var found := Lookup(cfg, names[i]);
      var n := if found.Some? then |views[found.value]| else 0;
      TargetAdvance(cfg, views, names, i, want);
      if want < c + n {
        return found.value, want - c;
      }
      c := c + n;
      i := i + 1;
    }
  }
}

/**
 * The value history of one parameter (PARAM_VAL): an insertion-ordered list
 * of values, each with an optional text, an optional source, a priority and
 * two check statuses. Every query filters by source and by a priority
 * selector and then indexes the surviving values in insertion order.
 */
module ParamValue {
  import opened Errors

  /** The lowest and the highest priority a value may be stored with. */
  const PriorityValidBase: int := 0
  const PriorityValidRoof: int := 0xffff

  datatype Value = Value(
    text: Option<string>,
    source: Option<string>,
    priority: int,
    formatStatus: int,
    contentStatus: int)
  {
    /** A value whose format or content check failed. */
    predicate IsInvalid() { formatStatus != 0 || contentStatus != 0 }
  }

  /** The priority filter of every query (PST_PRIORITY_NONE, an exact level, ...). */
  datatype PrioritySelector =
    | AnyPriority
    | Exactly(level: int)
    | Lowest
    | Highest
    | HigherThan(bound: int)
    | LowerThan(bound: int)

  /** A match index: a 0-based position, or PST_INDEX_FIRST / PST_INDEX_LAST. */
  datatype Index = At(i: int) | First | Last

  /** A priority selector once LOWEST and HIGHEST are resolved against a list. */
  datatype PriorityTest = Every | EqualTo(p: int) | Above(p: int) | Below(p: int) | NoPriority

  /** Everything a query keeps: the source, the priority test, and whether only invalid values count. */
  datatype Filter = Filter(source: Option<string>, test: PriorityTest, invalidOnly: bool)

  /** A missing source filter accepts every value; otherwise sources must be equal. */
  predicate FromSource(source: Option<string>, v: Value)
  {
    source.None? || v.source == source
  }

  predicate Passes(t: PriorityTest, prio: int)
  {
    match t
    case Every => true
    case EqualTo(p) => prio == p
    case Above(p) => prio > p
    case Below(p) => prio < p
    case NoPriority => false
  }

  predicate Accepts(f: Filter, v: Value)
  {
    FromSource(f.source, v) && Passes(f.test, v.priority) && (!f.invalidOnly || v.IsInvalid())
  }

  predicate InRange(priority: int)
  {
    PriorityValidBase <= priority <= PriorityValidRoof
  }

  /** The values `f` accepts, in list order. */
  function Keep(vs: seq<Value>, f: Filter): (r: seq<Value>)
    ensures |r| <= |vs|
  {
    if |vs| == 0 then []
    else Keep(vs[..|vs| - 1], f) + (if Accepts(f, vs[|vs| - 1]) then [vs[|vs| - 1]] else [])
  }

  /** The list positions of the values `f` accepts, in list order. */
  function Positions(vs: seq<Value>, f: Filter): (ps: seq<nat>)
    ensures |ps| == |Keep(vs, f)|
    ensures forall k :: 0 <= k < |ps| ==> ps[k] < |vs|
  {
    if |vs| == 0 then []
    else Positions(vs[..|vs| - 1], f) + (if Accepts(f, vs[|vs| - 1]) then [|vs| - 1] else [])
  }

  /** The lowest priority in a non-empty list (see PriorityExtremes). */
  function MinPriority(vs: seq<Value>): int
    requires |vs| > 0
  {
    if |vs| == 1 then vs[0].priority
    else
      var m := MinPriority(vs[..|vs| - 1]);
      if vs[|vs| - 1].priority < m then vs[|vs| - 1].priority else m
  }

  /** The highest priority in a non-empty list (see PriorityExtremes). */
  function MaxPriority(vs: seq<Value>): int
    requires |vs| > 0
  {
    if |vs| == 1 then vs[0].priority
    else
      var m := MaxPriority(vs[..|vs| - 1]);
      if vs[|vs| - 1].priority > m then vs[|vs| - 1].priority else m
  }

  /** MinPriority and MaxPriority are priorities of the list, below and above all others. */
  lemma {:induction false} PriorityExtremes(vs: seq<Value>)
    requires |vs| > 0
    ensures exists v :: v in vs && v.priority == MinPriority(vs)
    ensures forall v :: v in vs ==> MinPriority(vs) <= v.priority
    ensures exists v :: v in vs && v.priority == MaxPriority(vs)
    ensures forall v :: v in vs ==> v.priority <= MaxPriority(vs)
  {
    if |vs| > 1 {
      var init, last := vs[..|vs| - 1], vs[|vs| - 1];
      assert forall v :: v in vs ==> v in init || v == last;
      PriorityExtremes(init);
      var lo :| lo in init && lo.priority == MinPriority(init);
      var hi :| hi in init && hi.priority == MaxPriority(init);
      assert lo in vs && hi in vs;
      assert last in vs;
    } else {
      assert vs[0] in vs;
    }
  }

  /** LOWEST and HIGHEST look at the values of the requested source only. */
  function Resolve(vs: seq<Value>, source: Option<string>, sel: PrioritySelector): PriorityTest
  {
    var bucket := Keep(vs, Filter(source, Every, false));
    match sel
    case AnyPriority => Every
    case Exactly(p) => EqualTo(p)
    case Lowest => if |bucket| == 0 then NoPriority else EqualTo(MinPriority(bucket))
    case Highest => if |bucket| == 0 then NoPriority else EqualTo(MaxPriority(bucket))
    case HigherThan(p) => Above(p)
    case LowerThan(p) => Below(p)
  }

  function Selection(vs: seq<Value>, source: Option<string>, sel: PrioritySelector, invalidOnly: bool): Filter
  {
    Filter(source, Resolve(vs, source, sel), invalidOnly)
  }

  /** Which of `n` matches an index asks for. */
  function Slot(at: Index, n: nat): Result<nat>
  {
    match at
    case At(i) =>
      if i < 0 then Failure(InvalidArgument)
      else if i >= n then Failure(ParameterValueNotFound)
      else Success(i)
    case First => if n == 0 then Failure(ParameterValueNotFound) else Success(0)
    case Last => if n == 0 then Failure(ParameterValueNotFound) else Success(n - 1)
  }

  /** The list position of the value that `at` picks among those `f` accepts. */
  function Locate(vs: seq<Value>, f: Filter, at: Index): (r: Result<nat>)
    ensures r.Success? ==> r.value < |vs| && Accepts(f, vs[r.value])
  {
    if |vs| == 0 then Failure(ParameterEmpty)
    else
      match Slot(at, |Keep(vs, f)|)
      case Failure(e) => Failure(e)
      case Success(k) =>
        PositionsMeaning(vs, f);
        KeepMembers(vs, f);
        assert Keep(vs, f)[k] in Keep(vs, f);
        Success(Positions(vs, f)[k])
  }

  function Pick(vs: seq<Value>, f: Filter, at: Index): Result<Value>
  {
    match Locate(vs, f, at)
    case Success(p) => Success(vs[p])
    case Failure(e) => Failure(e)
  }

  /** PARAM_VAL_getElement. */
  function Extract(vs: seq<Value>, source: Option<string>, sel: PrioritySelector, at: Index): Result<Value>
  {
    Pick(vs, Selection(vs, source, sel, false), at)
  }

  /** PARAM_VAL_getElementCount. */
  function Count(vs: seq<Value>, source: Option<string>, sel: PrioritySelector): nat
  {
    |Keep(vs, Selection(vs, source, sel, false))|
  }

  /** PARAM_VAL_getInvalid. */
  function ExtractInvalid(vs: seq<Value>, source: Option<string>, sel: PrioritySelector, at: Index): Result<Value>
  {
    Pick(vs, Selection(vs, source, sel, true), at)
  }

  /** PARAM_VAL_getInvalidCount. */
  function InvalidCount(vs: seq<Value>, source: Option<string>, sel: PrioritySelector): nat
  {
    |Keep(vs, Selection(vs, source, sel, true))|
  }

  function RemoveAt<T>(s: seq<T>, p: nat): seq<T>
    requires p < |s|
  {
    s[..p] + s[p + 1..]
  }

  /** The running answer of a priority query after one more value. */
  function PriorityStep(best: Option<int>, sel: PrioritySelector, prio: int): Option<int>
  {
    match sel
    case Lowest => if best.None? || prio < best.value then Some(prio) else best
    case Highest => if best.None? || prio > best.value then Some(prio) else best
    case Exactly(p) => if prio > p && (best.None? || prio < best.value) then Some(prio) else best
    case _ => best
  }

  function PriorityScan(vs: seq<Value>, sel: PrioritySelector): Option<int>
  {
    if |vs| == 0 then None
    else PriorityStep(PriorityScan(vs[..|vs| - 1], sel), sel, vs[|vs| - 1].priority)
  }

  /** The selectors getPriority refuses: NONE, the bound selectors, and a level below the valid base (such as NOTDEFINED). */
  predicate PriorityQueryRefused(sel: PrioritySelector)
  {
    sel.AnyPriority? || sel.HigherThan? || sel.LowerThan? || (sel.Exactly? && sel.level < PriorityValidBase)
  }

  /** PARAM_VAL_getPriority: the lowest, the highest, or the next larger priority present. */
  function PriorityOf(vs: seq<Value>, sel: PrioritySelector): Result<int>
  {
    if PriorityQueryRefused(sel) then Failure(InvalidArgument)
    else
      match PriorityScan(vs, sel)
      case None => Failure(ParameterValueNotFound)
      case Some(q) => Success(q)
  }

  /** The values a selector keeps, defined without resolving LOWEST and HIGHEST first. */
  predicate SelectedBy(vs: seq<Value>, source: Option<string>, sel: PrioritySelector, v: Value)
  {
    match sel
    case AnyPriority => true
    case Exactly(p) => v.priority == p
    case Lowest => forall w :: w in vs && FromSource(source, w) ==> v.priority <= w.priority
    case Highest => forall w :: w in vs && FromSource(source, w) ==> w.priority <= v.priority
    case HigherThan(p) => v.priority > p
    case LowerThan(p) => v.priority < p
  }

  // ---------------------------------------------------------------------
  // Properties of the queries
  // ---------------------------------------------------------------------

  /** A selection holds exactly the accepted values of the list. */
  lemma {:induction false} KeepMembers(vs: seq<Value>, f: Filter)
    ensures forall v :: v in Keep(vs, f) <==> v in vs && Accepts(f, v)
  {
    if |vs| > 0 {
      var init := vs[..|vs| - 1];
      KeepMembers(init, f);
      assert vs == init + [vs[|vs| - 1]];
    }
  }

  /** Nothing accepted, nothing kept. */
  lemma {:induction false} KeepNone(vs: seq<Value>, f: Filter)
    requires forall v :: v in vs ==> !Accepts(f, v)
    ensures Keep(vs, f) == []
  {
    if |vs| > 0 {
      var init := vs[..|vs| - 1];
      assert forall v :: v in init ==> v in vs;
      KeepNone(init, f);
      assert vs[|vs| - 1] in vs;
    }
  }

  /** Positions index the selection, increase strictly, and miss no accepted value. */
  lemma {:induction false} PositionsMeaning(vs: seq<Value>, f: Filter)
    ensures forall k :: 0 <= k < |Positions(vs, f)| ==> vs[Positions(vs, f)[k]] == Keep(vs, f)[k]
    ensures forall k, l :: 0 <= k < l < |Positions(vs, f)| ==> Positions(vs, f)[k] < Positions(vs, f)[l]
    ensures forall i :: 0 <= i < |vs| && Accepts(f, vs[i]) ==> i in Positions(vs, f)
  {
    if |vs| > 0 {
      var init := vs[..|vs| - 1];
      PositionsMeaning(init, f);
      var ps := Positions(init, f);
      assert forall k :: 0 <= k < |ps| ==> vs[ps[k]] == init[ps[k]];
      assert forall i :: 0 <= i < |init| ==> vs[i] == init[i];
    }
  }

  lemma {:induction false} KeepConcat(a: seq<Value>, b: seq<Value>, f: Filter)
    ensures Keep(a + b, f) == Keep(a, f) + Keep(b, f)
    decreases |b|
  {
    if |b| == 0 {
      assert a + b == a;
    } else {
      var b' := b[..|b| - 1];
      assert (a + b)[..|a + b| - 1] == a + b';
      KeepConcat(a, b', f);
    }
  }

  lemma {:induction false} PositionsPrefix(vs: seq<Value>, f: Filter, j: nat)
    requires j <= |vs|
    ensures |Positions(vs[..j], f)| <= |Positions(vs, f)|
    ensures Positions(vs[..j], f) == Positions(vs, f)[..|Positions(vs[..j], f)|]
    decreases |vs|
  {
    if j == |vs| {
      assert vs[..j] == vs;
    } else {
      var init := vs[..|vs| - 1];
      assert init[..j] == vs[..j];
      PositionsPrefix(init, f, j);
    }
  }

  /** The unfiltered query keeps every value. */
  lemma {:induction false} KeepEverything(vs: seq<Value>)
    ensures Keep(vs, Filter(None, Every, false)) == vs
  {
    if |vs| > 0 {
      KeepEverything(vs[..|vs| - 1]);
      assert vs[..|vs| - 1] + [vs[|vs| - 1]] == vs;
    }
  }

  lemma {:induction false} MonotoneAtLeastIndex(ps: seq<nat>, k: nat)
    requires k < |ps|
    requires forall a, b :: 0 <= a < b < |ps| ==> ps[a] < ps[b]
    ensures ps[k] >= k
  {
    if k > 0 {
      MonotoneAtLeastIndex(ps, k - 1);
    }
  }

  lemma {:induction false} MonotoneAtMostIndex(ps: seq<nat>, n: nat, k: nat)
    requires |ps| == n && k < n
    requires forall a, b :: 0 <= a < b < |ps| ==> ps[a] < ps[b]
    requires forall a :: 0 <= a < |ps| ==> ps[a] < n
    ensures ps[k] <= k
    decreases n - k
  {
    if k < n - 1 {
      MonotoneAtMostIndex(ps, n, k + 1);
    }
  }

  /** Values keep insertion order: unfiltered, match i is the i-th added value. */
  lemma UnfilteredExtract(vs: seq<Value>, i: int)
    ensures Count(vs, None, AnyPriority) == |vs|
    ensures 0 <= i < |vs| ==> Extract(vs, None, AnyPriority, At(i)) == Success(vs[i])
    ensures |vs| > 0 && i >= |vs| ==> Extract(vs, None, AnyPriority, At(i)) == Failure(ParameterValueNotFound)
  {
    var f := Filter(None, Every, false);
    KeepEverything(vs);
    if 0 <= i < |vs| {
      var ps := Positions(vs, f);
      PositionsMeaning(vs, f);
      MonotoneAtLeastIndex(ps, i);
      MonotoneAtMostIndex(ps, |vs|, i);
    }
  }

  /** The resolved selector keeps exactly the values the selector describes. */
  lemma SelectorMeaning(vs: seq<Value>, source: Option<string>, sel: PrioritySelector, v: Value)
    ensures v in Keep(vs, Selection(vs, source, sel, false))
        <==> v in vs && FromSource(source, v) && SelectedBy(vs, source, sel, v)
  {
    var bucket := Keep(vs, Filter(source, Every, false));
    KeepMembers(vs, Filter(source, Every, false));
    KeepMembers(vs, Selection(vs, source, sel, false));
    if |bucket| > 0 {
      PriorityExtremes(bucket);
    }
    if sel.Lowest? && |bucket| > 0 {
      var m := MinPriority(bucket);
      if v in vs && FromSource(source, v) && SelectedBy(vs, source, sel, v) {
        var w :| w in bucket && w.priority == m;
        assert v.priority <= w.priority;
      }
    } else if sel.Highest? && |bucket| > 0 {
      var m := MaxPriority(bucket);
      if v in vs && FromSource(source, v) && SelectedBy(vs, source, sel, v) {
        var w :| w in bucket && w.priority == m;
        assert w.priority <= v.priority;
      }
    }
  }

  /** A selection is a subsequence: match k sits before match l in the list when k < l. */
  lemma MatchesInListOrder(vs: seq<Value>, source: Option<string>, sel: PrioritySelector, k: nat, l: nat)
    requires k < l < Count(vs, source, sel)
    ensures Locate(vs, Selection(vs, source, sel, false), At(k)).Success?
    ensures Locate(vs, Selection(vs, source, sel, false), At(l)).Success?
    ensures Locate(vs, Selection(vs, source, sel, false), At(k)).value
          < Locate(vs, Selection(vs, source, sel, false), At(l)).value
  {
    PositionsMeaning(vs, Selection(vs, source, sel, false));
  }

  /** The values a query sees: those of the source and the selector, in list order. */
  function Matches(vs: seq<Value>, source: Option<string>, sel: PrioritySelector): seq<Value>
  {
    Keep(vs, Selection(vs, source, sel, false))
  }

  /**
   * getElement indexes the matching values: an empty list is PST_PARAMETER_EMPTY,
   * otherwise `at` picks among the matches or fails as the index rules say.
   */
  lemma ExtractIsMatch(vs: seq<Value>, source: Option<string>, sel: PrioritySelector, at: Index)
    ensures Extract(vs, source, sel, at) ==
      if |vs| == 0 then Failure(ParameterEmpty)
      else match Slot(at, |Matches(vs, source, sel)|)
        case Success(k) => Success(Matches(vs, source, sel)[k])
        case Failure(e) => Failure(e)
  {
    PositionsMeaning(vs, Selection(vs, source, sel, false));
  }

  /** With every priority in range, nothing is above the roof or below the base. */
  lemma OutOfRangeSelectorsAreEmpty(vs: seq<Value>, source: Option<string>)
    requires forall v :: v in vs ==> InRange(v.priority)
    ensures Count(vs, source, HigherThan(PriorityValidRoof)) == 0
    ensures Count(vs, source, LowerThan(PriorityValidBase)) == 0
  {
    KeepNone(vs, Selection(vs, source, HigherThan(PriorityValidRoof), false));
    KeepNone(vs, Selection(vs, source, LowerThan(PriorityValidBase), false));
  }

  /** Index FIRST and LAST pick the first and the last match. */
  lemma FirstAndLast(vs: seq<Value>, source: Option<string>, sel: PrioritySelector)
    requires Count(vs, source, sel) > 0
    ensures Extract(vs, source, sel, First) == Extract(vs, source, sel, At(0))
    ensures Extract(vs, source, sel, Last) == Extract(vs, source, sel, At(Count(vs, source, sel) - 1))
  {
  }

  /** The invalid view is the selection restricted to invalid values, in the same order. */
  lemma {:induction false} InvalidView(vs: seq<Value>, s: Option<string>, t: PriorityTest)
    ensures Keep(vs, Filter(s, t, true)) == Keep(Keep(vs, Filter(s, t, false)), Filter(None, Every, true))
  {
    if |vs| > 0 {
      var init := vs[..|vs| - 1];
      var last := vs[|vs| - 1];
      var all := Filter(s, t, false);
      var bad := Filter(None, Every, true);
      InvalidView(init, s, t);
      assert Keep(vs, all) == Keep(init, all) + (if Accepts(all, last) then [last] else []);
      if Accepts(all, last) {
        KeepConcat(Keep(init, all), [last], bad);
        assert [last][..0] == [];
        assert Keep([last], bad) == (if last.IsInvalid() then [last] else []);
      } else {
        assert Keep(init, all) + [] == Keep(init, all);
      }
    }
  }

  /** The invalid view holds exactly the selected values whose format or content failed. */
  lemma InvalidCountMeaning(vs: seq<Value>, source: Option<string>, sel: PrioritySelector, v: Value)
    ensures v in Keep(vs, Selection(vs, source, sel, true))
        <==> v in Keep(vs, Selection(vs, source, sel, false)) && v.IsInvalid()
    ensures InvalidCount(vs, source, sel) <= Count(vs, source, sel)
  {
    var t := Resolve(vs, source, sel);
    InvalidView(vs, source, t);
    KeepMembers(Keep(vs, Filter(source, t, false)), Filter(None, Every, true));
  }

  /** What PARAM_VAL_getPriority answers, stated without the scan. */
  lemma {:induction false} PriorityScanMeaning(vs: seq<Value>, sel: PrioritySelector)
    ensures sel.Lowest? && |vs| > 0 ==> PriorityScan(vs, sel) == Some(MinPriority(vs))
    ensures sel.Highest? && |vs| > 0 ==> PriorityScan(vs, sel) == Some(MaxPriority(vs))
    ensures |vs| == 0 ==> PriorityScan(vs, sel) == None
    ensures sel.Exactly? ==>
      match PriorityScan(vs, sel)
      case None => forall v :: v in vs ==> v.priority <= sel.level
      case Some(q) =>
        q > sel.level && (exists v :: v in vs && v.priority == q)
        && forall v :: v in vs && v.priority > sel.level ==> q <= v.priority
  {
    if |vs| > 0 {
      var init := vs[..|vs| - 1];
      var last := vs[|vs| - 1];
      assert forall v :: v in vs ==> v in init || v == last;
      PriorityScanMeaning(init, sel);
      if sel.Exactly? {
        var before := PriorityScan(init, sel);
        if before.Some? {
          var w :| w in init && w.priority == before.value;
          assert w in vs;
        }
      }
    }
  }

  /** The value at the k-th match position is accepted. */
  lemma PositionAccepted(vs: seq<Value>, f: Filter, k: nat)
    requires k < |Keep(vs, f)|
    ensures Positions(vs, f)[k] < |vs| && Accepts(f, vs[Positions(vs, f)[k]])
  {
    PositionsMeaning(vs, f);
    KeepMembers(vs, f);
    assert Keep(vs, f)[k] in Keep(vs, f);
  }

  /** Extending a prefix by an accepted value adds its position. */
  lemma PositionsGrow(vs: seq<Value>, f: Filter, p: nat)
    requires p < |vs| && Accepts(f, vs[p])
    ensures Positions(vs[..p + 1], f) == Positions(vs[..p], f) + [p]
  {
    var pre := vs[..p + 1];
    assert pre[..p] == vs[..p] && pre[p] == vs[p] && |pre| == p + 1;
  }

  /** In a strictly increasing sequence, equal entries sit at equal indices. */
  lemma StrictlyIncreasingIndex(ps: seq<nat>, j: nat, k: nat)
    requires forall a, b :: 0 <= a < b < |ps| ==> ps[a] < ps[b]
    requires j < |ps| && k < |ps| && ps[j] == ps[k]
    ensures j == k
  {
  }

  /** The k-th match has exactly k matches before it in the list. */
  lemma PositionRank(vs: seq<Value>, f: Filter, k: nat)
    requires k < |Keep(vs, f)|
    ensures Positions(vs, f)[k] < |vs|
    ensures |Keep(vs[..Positions(vs, f)[k]], f)| == k
  {
    var ps := Positions(vs, f);
    var p := ps[k];
    PositionAccepted(vs, f, k);
    PositionsGrow(vs, f, p);
    PositionsPrefix(vs, f, p + 1);
    var j := |Positions(vs[..p], f)|;
    assert ps[j] == p;
    PositionsMeaning(vs, f);
    StrictlyIncreasingIndex(ps, j, k);
  }

  /** Cutting the list around an accepted value cuts the selection around it. */
  lemma KeepAround(vs: seq<Value>, f: Filter, p: nat)
    requires p < |vs| && Accepts(f, vs[p])
    ensures Keep(vs, f) == Keep(vs[..p], f) + [vs[p]] + Keep(vs[p + 1..], f)
    ensures Keep(RemoveAt(vs, p), f) == Keep(vs[..p], f) + Keep(vs[p + 1..], f)
  {
    KeepConcat(vs[..p], vs[p + 1..], f);
    KeepConcat(vs[..p + 1], vs[p + 1..], f);
    assert vs[..p + 1] + vs[p + 1..] == vs;
    assert vs[..p + 1][..p] == vs[..p];
  }

  /** Removing the k-th match from the list removes it, and only it, from the selection. */
  lemma PopKeepsOtherMatches(vs: seq<Value>, f: Filter, k: nat)
    requires k < |Keep(vs, f)|
    ensures Positions(vs, f)[k] < |vs|
    ensures Keep(RemoveAt(vs, Positions(vs, f)[k]), f) == RemoveAt(Keep(vs, f), k)
  {
    var p := Positions(vs, f)[k];
    PositionRank(vs, f, k);
    PositionsMeaning(vs, f);
    KeepMembers(vs, f);
    assert vs[p] == Keep(vs, f)[k];
    assert Keep(vs, f)[k] in Keep(vs, f);
    KeepAround(vs, f, p);
    var before := Keep(vs[..p], f);
    var after := Keep(vs[p + 1..], f);
    assert (before + [vs[p]] + after)[..k] == before;
    assert (before + [vs[p]] + after)[k + 1..] == after;
  }

  /**
   * The value history of one parameter. The list root of the C library is the
   * `values` field; adding and popping rewrite it.
   */
  class ValueList {
    var values: seq<Value>

    /** Every stored priority lies in the valid range. */
    ghost predicate Valid()
      reads this
    {
      forall v :: v in values ==> InRange(v.priority)
    }

    constructor ()
      ensures Valid() && values == []
    {
      values := [];
    }

    /** PARAM_VAL_new: appends a value with clear statuses, or rejects the priority. */
    method Append(text: Option<string>, source: Option<string>, priority: int) returns (st: Status)
      requires Valid()
      modifies this
      ensures Valid()
      ensures priority < PriorityValidBase ==> st == PriorityNegative
      ensures priority > PriorityValidRoof ==> st == PriorityTooLarge
      ensures st == Ok <==> InRange(priority)
      ensures st == Ok ==> values == old(values) + [Value(text, source, priority, 0, 0)]
      ensures st != Ok ==> values == old(values)
    {
      if priority < PriorityValidBase {
        return PriorityNegative;
      }
      if priority > PriorityValidRoof {
        return PriorityTooLarge;
      }
      values := values + [Value(text, source, priority, 0, 0)];
      st := Ok;
    }

    /** Drops every value (the history of PARAM_clearAll). */
    method Clear()
      modifies this
      ensures Valid() && values == []
    {
      values := [];
    }

    /** Records the check results of the value at list position `p`. */
    method SetStatus(p: nat, formatStatus: int, contentStatus: int)
      requires Valid() && p < |values|
      modifies this
      ensures Valid()
      ensures values == old(values)[p := old(values)[p].(formatStatus := formatStatus, contentStatus := contentStatus)]
    {
      values := values[p := values[p].(formatStatus := formatStatus, contentStatus := contentStatus)];
    }

    /** Walks the list and counts the values `f` accepts. */
    method CountAccepted(f: Filter) returns (n: nat)
      ensures n == |Keep(values, f)|
    {
      n := 0;
      var i := 0;
      while i < |values|
        invariant 0 <= i <= |values|
        invariant n == |Keep(values[..i], f)|
      {
        assert values[..i + 1][..i] == values[..i];
        if Accepts(f, values[i]) {
          n := n + 1;
        }
        i := i + 1;
      }
      assert values[..i] == values;
    }

    /** Walks the list to the k-th value `f` accepts. */
    method Seek(f: Filter, k: nat) returns (p: nat)
      requires k < |Keep(values, f)|
      ensures p == Positions(values, f)[k]
    {
      assert values[..|values|] == values;
      var i := 0;
      var c := 0;
      while true
        invariant 0 <= i < |values|
        invariant c == |Keep(values[..i], f)| && c <= k
        decreases |values| - i
      {
        assert values[..i + 1][..i] == values[..i];
        if Accepts(f, values[i]) {
          if c == k {
            PositionsPrefix(values, f, i + 1);
            return i;
          }
          c := c + 1;
        }
        i := i + 1;
      }
    }

    method Find(f: Filter, at: Index) returns (r: Result<nat>)
      ensures r == Locate(values, f, at)
    {
      if |values| == 0 {
        return Failure(ParameterEmpty);
      }
      var n := CountAccepted(f);
      match Slot(at, n)
      case Failure(e) =>
        r := Failure(e);
      case Success(k) =>
        var p := Seek(f, k);
        r := Success(p);
    }

    /** PARAM_VAL_getElement. */
    method GetElement(source: Option<string>, sel: PrioritySelector, at: Index) returns (r: Result<Value>)
      ensures r == Extract(values, source, sel, at)
    {
      var found := Find(Selection(values, source, sel, false), at);
      r := if found.Success? then Success(values[found.value]) else Failure(found.error);
    }

    /** PARAM_VAL_getElementCount. */
    method GetElementCount(source: Option<string>, sel: PrioritySelector) returns (n: nat)
      ensures n == Count(values, source, sel)
    {
      n := CountAccepted(Selection(values, source, sel, false));
    }

    /** PARAM_VAL_getInvalid. */
    method GetInvalid(source: Option<string>, sel: PrioritySelector, at: Index) returns (r: Result<Value>)
      ensures r == ExtractInvalid(values, source, sel, at)
    {
      var found := Find(Selection(values, source, sel, true), at);
      r := if found.Success? then Success(values[found.value]) else Failure(found.error);
    }

    /** PARAM_VAL_getInvalidCount. */
    method GetInvalidCount(source: Option<string>, sel: PrioritySelector) returns (n: nat)
      ensures n == InvalidCount(values, source, sel)
    {
      n := CountAccepted(Selection(values, source, sel, true));
    }

    /** PARAM_VAL_getPriority: on failure the caller's variable keeps its value `prior`. */
    method GetPriority(sel: PrioritySelector, prior: int) returns (st: Status, priority: int)
      ensures PriorityQueryRefused(sel) ==> st == InvalidArgument && priority == prior
      ensures PriorityOf(values, sel).Success? ==> st == Ok && priority == PriorityOf(values, sel).value
      ensures PriorityOf(values, sel).Failure? ==> st == PriorityOf(values, sel).error && priority == prior
    {
      if PriorityQueryRefused(sel) {
        return InvalidArgument, prior;
      }
      var best: Option<int> := None;
      var i := 0;
      while i < |values|
        invariant 0 <= i <= |values|
        invariant best == PriorityScan(values[..i], sel)
      {
        assert values[..i + 1][..i] == values[..i];
        best := PriorityStep(best, sel, values[i].priority);
        i := i + 1;
      }
      assert values[..i] == values;
      if best.None? {
        return ParameterValueNotFound, prior;
      }
      return Ok, best.value;
    }

    /** PARAM_VAL_popElement: unlinks the selected value and returns it. */
    method Pop(source: Option<string>, sel: PrioritySelector, at: Index) returns (r: Result<Value>)
      requires Valid()
      modifies this
      ensures Valid()
      ensures r == Extract(old(values), source, sel, at)
      ensures match Locate(old(values), Selection(old(values), source, sel, false), at)
        case Success(p) => values == RemoveAt(old(values), p)
        case Failure(_) => values == old(values)
    {
      var found := Find(Selection(values, source, sel, false), at);
      if found.Failure? {
        return Failure(found.error);
      }
      var p := found.value;
      r := Success(values[p]);
      assert forall v :: v in RemoveAt(values, p) ==> v in values;
      values := RemoveAt(values, p);
    }
  }

  /** The eight values of the getPriority test, in the order they are added. */
  const PriorityTestList: seq<Value> := [
    Value(Some("1_p0"), None, 0, 0, 0), Value(Some("b1_p3"), Some("B"), 3, 0, 0),
    Value(Some("2_p0"), None, 0, 0, 0), Value(Some("b2_p1"), Some("B"), 1, 0, 0),
    Value(Some("3_p2"), None, 2, 0, 0), Value(Some("b3_p0"), Some("B"), 0, 0, 0),
    Value(Some("b4_p2"), Some("B"), 2, 0, 0), Value(Some("c1_p2"), Some("C"), 2, 0, 0)]

  /** Scanning one more value of a prefix takes one more step. */
  lemma ScanPrefix(vs: seq<Value>, k: nat, sel: PrioritySelector)
    requires 0 < k <= |vs|
    ensures PriorityScan(vs[..k], sel) == PriorityStep(PriorityScan(vs[..k - 1], sel), sel, vs[k - 1].priority)
  {
    assert vs[..k][..k - 1] == vs[..k - 1];
  }

  /** The scan of the test list is the steps over its priorities 0, 3, 0, 1, 2, 0, 2, 2. */
  lemma PriorityTestScan(sel: PrioritySelector)
    ensures PriorityScan(PriorityTestList, sel)
      == PriorityStep(PriorityStep(PriorityStep(PriorityStep(PriorityStep(PriorityStep(PriorityStep(PriorityStep(
           None, sel, 0), sel, 3), sel, 0), sel, 1), sel, 2), sel, 0), sel, 2), sel, 2)
  {
    var l := PriorityTestList;
    assert l[..0] == [];
    ScanPrefix(l, 1, sel);
    ScanPrefix(l, 2, sel);
    ScanPrefix(l, 3, sel);
    ScanPrefix(l, 4, sel);
    ScanPrefix(l, 5, sel);
    ScanPrefix(l, 6, sel);
    ScanPrefix(l, 7, sel);
    ScanPrefix(l, 8, sel);
    assert l[..8] == l;
  }

  /** NONE and any level below the valid base, NOTDEFINED among them, are refused. */
  lemma PriorityRefusedExamples(notDefined: int)
    requires notDefined < PriorityValidBase
    ensures PriorityOf(PriorityTestList, AnyPriority) == Failure(InvalidArgument)
    ensures PriorityOf(PriorityTestList, Exactly(notDefined)) == Failure(InvalidArgument)
  {
  }

  /** HIGHEST is 3, LOWEST is 0, and stepping from a priority gives 1, 2, 3 and then nothing. */
  lemma PriorityStepExamples()
    ensures PriorityOf(PriorityTestList, Highest) == Success(3)
    ensures PriorityOf(PriorityTestList, Lowest) == Success(0)
    ensures PriorityOf(PriorityTestList, Exactly(0)) == Success(1)
    ensures PriorityOf(PriorityTestList, Exactly(1)) == Success(2)
    ensures PriorityOf(PriorityTestList, Exactly(2)) == Success(3)
    ensures PriorityOf(PriorityTestList, Exactly(3)) == Failure(ParameterValueNotFound)
  {
    PriorityTestScan(Highest);
    PriorityTestScan(Lowest);
    PriorityTestScan(Exactly(0));
    PriorityTestScan(Exactly(1));
    PriorityTestScan(Exactly(2));
    PriorityTestScan(Exactly(3));
  }

  /** ITERATOR: a cursor over a value history whose fetch agrees with getElement. */
  class Iterator {
    const list: ValueList

    constructor (list: ValueList)
      ensures this.list == list
    {
      this.list := list;
    }

    /** ITERATOR_fetch: the `at`-th value matching the source and the selector. */
    method Fetch(source: Option<string>, sel: PrioritySelector, at: Index) returns (r: Result<Value>)
      ensures r == Extract(list.values, source, sel, at)
    {
      r := list.GetElement(source, sel, at);
    }
  }
}

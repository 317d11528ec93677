/**
 * Task definitions and task sets (TASK_DEFINITION, TASK_SET). A task names the
 * parameters it needs (mandatory), wants at least one of (at-least-one), must not
 * see (forbidden) and tolerates but drops (ignorable). A task set scores every
 * task against a parameter set and hands out the one task that fits exactly.
 */
module TaskDef {
  import opened Errors
  import opened ParamValue
  import opened ParamSet

  /** A task: its id, its name and its four groups of parameter names ("atoms"). */
  datatype TaskDefinition = TaskDefinition(
    id: int, name: string,
    mandatory: seq<string>, atLeastOne: seq<string>, forbidden: seq<string>, ignorable: seq<string>)

  /** Which of two tasks getMoreConsistent prefers; Neither is the NULL answer. */
  datatype Preference = FirstTask | SecondTask | Neither

  /** What the repair report names: unset mandatory atoms, an unmet at-least-one group, set forbidden atoms. */
  datatype Repair = Repair(missing: seq<string>, oneOf: seq<string>, unwanted: seq<string>)

  /** The atoms `keep` accepts, in their order. */
  function Picked(atoms: seq<string>, keep: string -> bool): (r: seq<string>)
    ensures |r| <= |atoms|
  {
    if |atoms| == 0 then []
    else (if keep(atoms[0]) then [atoms[0]] else []) + Picked(atoms[1..], keep)
  }

  /**
   * An atom is set when it names a parameter holding at least one value; an
   * atom naming no parameter of the set counts as unset.
   */
  function SetIn(cfg: seq<Entry>, lists: seq<seq<Value>>): string -> bool
  {
    a => |lists| == |cfg| && ListOf(cfg, lists, a) != []
  }

  /** n / d as a real, and 0 when there is nothing to divide by. */
  function Ratio(n: int, d: nat): real
  {
    if d == 0 then 0.0 else n as real / d as real
  }

  /** What a task scores for: its set mandatory and at-least-one atoms, less its set forbidden atoms. */
  function Merit(t: TaskDefinition, isSet: string -> bool): int
  {
    |Picked(t.mandatory, isSet)| + |Picked(t.atLeastOne, isSet)| - |Picked(t.forbidden, isSet)|
  }

  /**
   * What a task is scored out of: its mandatory atoms plus the weight of its
   * at-least-one group (the group's set atoms, but at least one when the group
   * is not empty).
   */
  function Weight(t: TaskDefinition, isSet: string -> bool): nat
  {
    var sa := |Picked(t.atLeastOne, isSet)|;
    |t.mandatory| + (if |t.atLeastOne| == 0 then 0 else if sa == 0 then 1 else sa)
  }

  /** TASK_DEFINITION_analyzeConsistency: the merit of the definition over its weight. */
  function Score(t: TaskDefinition, isSet: string -> bool): real
  {
    Ratio(Merit(t, isSet), Weight(t, isSet))
  }

  /** The definition fits: every mandatory atom set, the at-least-one group empty or hit, no forbidden atom set. */
  predicate Fits(t: TaskDefinition, isSet: string -> bool)
  {
    (forall i :: 0 <= i < |t.mandatory| ==> isSet(t.mandatory[i]))
    && (|t.atLeastOne| == 0 || exists i :: 0 <= i < |t.atLeastOne| && isSet(t.atLeastOne[i]))
    && (forall i :: 0 <= i < |t.forbidden| ==> !isSet(t.forbidden[i]))
  }

  /** How many mandatory and at-least-one atoms are set: what breaks a near tie. */
  function Covered(t: TaskDefinition, isSet: string -> bool): nat
  {
    |Picked(t.mandatory, isSet)| + |Picked(t.atLeastOne, isSet)|
  }

  /**
   * TASK_DEFINITION_getMoreConsistent: the clearly higher scorer wins; scores
   * closer than epsilon are told apart by the number of set mandatory and
   * at-least-one atoms, and an equal count gives no answer.
   */
  function MoreConsistent(a: TaskDefinition, b: TaskDefinition, isSet: string -> bool, epsilon: real): Preference
  {
    var sa, sb := Score(a, isSet), Score(b, isSet);
    if sa > sb && sa - sb >= epsilon then FirstTask
    else if sb > sa && sb - sa >= epsilon then SecondTask
    else if Covered(a, isSet) > Covered(b, isSet) then FirstTask
    else if Covered(b, isSet) > Covered(a, isSet) then SecondTask
    else Neither
  }

  /** TASK_DEFINITION_howToRepiar_toString, without its wording. */
  function RepairOf(t: TaskDefinition, isSet: string -> bool): Repair
  {
    Repair(Picked(t.mandatory, a => !isSet(a)),
           if |t.atLeastOne| > 0 && Picked(t.atLeastOne, isSet) == [] then t.atLeastOne else [],
           Picked(t.forbidden, isSet))
  }

  /** TASK_DEFINITION_ignoredParametersToString, without its wording: the set ignorable atoms. */
  function IgnoredOf(t: TaskDefinition, isSet: string -> bool): seq<string>
  {
    Picked(t.ignorable, isSet)
  }

  /** The score of every task, in task order. */
  function ScoresOf(tasks: seq<TaskDefinition>, isSet: string -> bool): (r: seq<real>)
    ensures |r| == |tasks|
  {
    seq(|tasks|, i requires 0 <= i < |tasks| => Score(tasks[i], isSet))
  }

  /** The positions holding a score of exactly 1, in increasing order. */
  function OnesIn(scores: seq<real>): (r: seq<nat>)
    ensures forall j :: 0 <= j < |r| ==> r[j] < |scores| && scores[r[j]] == 1.0
    ensures forall i :: 0 <= i < |scores| && scores[i] == 1.0 ==> i in r
    ensures forall j, l :: 0 <= j < l < |r| ==> r[j] < r[l]
  {
    if |scores| == 0 then []
    else OnesIn(scores[..|scores| - 1]) + (if scores[|scores| - 1] == 1.0 then [|scores| - 1] else [])
  }

  /**
   * TASK_SET_getConsistentTask: no tasks, no analysis since the last add, no
   * task at 1 and two tasks at 1 are errors; otherwise the one task at 1.
   */
  function Chosen(tasks: seq<TaskDefinition>, scores: seq<real>, analyzed: bool): Result<TaskDefinition>
    requires analyzed ==> |scores| == |tasks|
  {
    if |tasks| == 0 then Failure(TaskSetHasNoDefinitions)
    else if !analyzed then Failure(TaskSetNotAnalyzed)
    else
      var ones := OnesIn(scores);
      if |ones| == 0 then Failure(TaskZeroConsistentTasks)
      else if |ones| > 1 then Failure(TaskMultipleConsistentTasks)
      else Success(tasks[ones[0]])
  }

  /**
   * TASK_SET_cleanIgnored over a snapshot: every atom naming a parameter that
   * still holds values empties it and counts once.
   */
  function Cleaned(cfg: seq<Entry>, lists: seq<seq<Value>>, atoms: seq<string>): (r: (seq<seq<Value>>, nat))
    requires |lists| == |cfg|
    ensures |r.0| == |lists|
  {
    if |atoms| == 0 then (lists, 0)
    else
      var pre := Cleaned(cfg, lists, atoms[..|atoms| - 1]);
      var k := Lookup(cfg, atoms[|atoms| - 1]);
      if k.Some? && pre.0[k.value] != [] then (pre.0[k.value := []], pre.1 + 1) else pre
  }

  /** The parameters some atom names that held values to begin with. */
  function HeldNamed(cfg: seq<Entry>, lists: seq<seq<Value>>, atoms: seq<string>): set<nat>
  {
    set k: nat | k < |lists| && Named(cfg, atoms, k) && lists[k] != []
  }

  // ---------------------------------------------------------------------
  // Lemmas
  // ---------------------------------------------------------------------

  /** Every atom is picked exactly when all are accepted. */
  lemma {:induction false} PickedAll(atoms: seq<string>, keep: string -> bool)
    ensures |Picked(atoms, keep)| == |atoms| <==> forall i :: 0 <= i < |atoms| ==> keep(atoms[i])
  {
    if |atoms| > 0 {
      PickedAll(atoms[1..], keep);
      assert forall i :: 0 < i < |atoms| ==> atoms[i] == atoms[1..][i - 1];
    }
  }

  /** Nothing is picked exactly when no atom is accepted. */
  lemma {:induction false} PickedNone(atoms: seq<string>, keep: string -> bool)
    ensures Picked(atoms, keep) == [] <==> forall i :: 0 <= i < |atoms| ==> !keep(atoms[i])
  {
    if |atoms| > 0 {
      PickedNone(atoms[1..], keep);
      assert forall i :: 0 < i < |atoms| ==> atoms[i] == atoms[1..][i - 1];
    }
  }

  /** A ratio is 1 exactly for equal parts and at most 1 when the part is no larger. */
  lemma RatioOne(n: int, d: nat)
    requires d > 0
    ensures Ratio(n, d) == 1.0 <==> n == d
    ensures n <= d ==> Ratio(n, d) <= 1.0
  {
    var q := n as real / d as real;
    assert q * d as real == n as real;
  }

  /** The merit never exceeds the weight, and equals it exactly when the definition fits. */
  lemma MeritWeight(t: TaskDefinition, isSet: string -> bool)
    ensures Merit(t, isSet) <= Weight(t, isSet)
    ensures Merit(t, isSet) == Weight(t, isSet) <==> Fits(t, isSet)
  {
    PickedAll(t.mandatory, isSet);
    PickedNone(t.atLeastOne, isSet);
    PickedNone(t.forbidden, isSet);
  }

  /** No task scores above 1; a task with no mandatory and no at-least-one atom scores 0. */
  lemma ScoreAtMostOne(t: TaskDefinition, isSet: string -> bool)
    ensures Score(t, isSet) <= 1.0
    ensures |t.mandatory| + |t.atLeastOne| == 0 ==> Score(t, isSet) == 0.0
  {
    MeritWeight(t, isSet);
    if Weight(t, isSet) > 0 {
      RatioOne(Merit(t, isSet), Weight(t, isSet));
    }
  }

  /** A task scores exactly 1 when it fits the set, and (given some atom to score) only then. */
  lemma ScoreOne(t: TaskDefinition, isSet: string -> bool)
    ensures Score(t, isSet) == 1.0 ==> Fits(t, isSet)
    ensures Fits(t, isSet) && |t.mandatory| + |t.atLeastOne| > 0 ==> Score(t, isSet) == 1.0
  {
    MeritWeight(t, isSet);
    if Weight(t, isSet) > 0 {
      RatioOne(Merit(t, isSet), Weight(t, isSet));
    }
  }

  /** The repair report is empty exactly when the definition fits. */
  lemma RepairEmptyIffFits(t: TaskDefinition, isSet: string -> bool)
    ensures RepairOf(t, isSet) == Repair([], [], []) <==> Fits(t, isSet)
  {
    PickedNone(t.mandatory, a => !isSet(a));
    PickedNone(t.atLeastOne, isSet);
    PickedNone(t.forbidden, isSet);
  }

  /** Swapping the tasks swaps the answer. */
  lemma MoreConsistentSwap(a: TaskDefinition, b: TaskDefinition, isSet: string -> bool, epsilon: real)
    ensures MoreConsistent(a, b, isSet, epsilon) == FirstTask <==> MoreConsistent(b, a, isSet, epsilon) == SecondTask
    ensures MoreConsistent(a, b, isSet, epsilon) == Neither <==> MoreConsistent(b, a, isSet, epsilon) == Neither
  {
  }

  /** A task at least epsilon ahead wins; no answer only for near-equal scores and equal coverage. */
  lemma MoreConsistentMeaning(a: TaskDefinition, b: TaskDefinition, isSet: string -> bool, epsilon: real)
    ensures Score(a, isSet) > Score(b, isSet) && Score(a, isSet) - Score(b, isSet) >= epsilon
      ==> MoreConsistent(a, b, isSet, epsilon) == FirstTask
    ensures MoreConsistent(a, b, isSet, epsilon) == Neither ==>
      Covered(a, isSet) == Covered(b, isSet)
      && (Score(a, isSet) == Score(b, isSet)
          || (-epsilon < Score(a, isSet) - Score(b, isSet) < epsilon))
  {
  }

  /** Task i is the only one scoring exactly 1. */
  predicate OnlyOne(scores: seq<real>, i: nat)
  {
    i < |scores| && scores[i] == 1.0 && forall j :: 0 <= j < |scores| && scores[j] == 1.0 ==> j == i
  }

  /** The only task at 1 is the one chosen. */
  lemma ChosenOnlyOne(tasks: seq<TaskDefinition>, scores: seq<real>, i: nat)
    requires |scores| == |tasks| && OnlyOne(scores, i)
    ensures Chosen(tasks, scores, true) == Success(tasks[i])
  {
    OnesInOnlyOne(scores, i);
  }

  /** With no score at 1 there is no position to list. */
  lemma {:induction false} OnesInNone(scores: seq<real>)
    requires forall j :: 0 <= j < |scores| ==> scores[j] != 1.0
    ensures OnesIn(scores) == []
  {
    if |scores| > 0 {
      OnesInNone(scores[..|scores| - 1]);
    }
  }

  /** With a single score at 1, its position is all there is to list. */
  lemma {:induction false} OnesInOnlyOne(scores: seq<real>, i: nat)
    requires OnlyOne(scores, i)
    ensures OnesIn(scores) == [i]
  {
    var init := scores[..|scores| - 1];
    if i == |scores| - 1 {
      OnesInNone(init);
    } else {
      assert OnlyOne(init, i);
      OnesInOnlyOne(init, i);
    }
  }

  /** A chosen task is the only task at 1. */
  lemma ChosenIsOnlyOne(tasks: seq<TaskDefinition>, scores: seq<real>)
    requires |scores| == |tasks| && Chosen(tasks, scores, true).Success?
    ensures exists i: nat :: OnlyOne(scores, i) && Chosen(tasks, scores, true).value == tasks[i]
  {
    var ones := OnesIn(scores);
    var i := ones[0];
    forall j | 0 <= j < |scores| && scores[j] == 1.0
      ensures j == i
    {
      assert j in ones;
    }
    assert OnlyOne(scores, i);
  }

  /** Analysis finds no consistent task exactly when no task scores 1. */
  lemma ChosenZero(tasks: seq<TaskDefinition>, scores: seq<real>)
    requires |scores| == |tasks| > 0
    ensures Chosen(tasks, scores, true) == Failure(TaskZeroConsistentTasks) <==>
      forall i :: 0 <= i < |scores| ==> scores[i] != 1.0
  {
    var ones := OnesIn(scores);
    if |ones| > 0 {
      assert scores[ones[0]] == 1.0;
    }
  }

  /** Analysis finds several consistent tasks exactly when two tasks score 1. */
  lemma ChosenMultiple(tasks: seq<TaskDefinition>, scores: seq<real>)
    requires |scores| == |tasks|
    ensures Chosen(tasks, scores, true) == Failure(TaskMultipleConsistentTasks) <==>
      exists i, j :: 0 <= i < j < |scores| && scores[i] == 1.0 && scores[j] == 1.0
  {
    var ones := OnesIn(scores);
    if |ones| > 1 {
      var i, j := ones[0], ones[1];
      assert 0 <= i < j < |scores| && scores[i] == 1.0 && scores[j] == 1.0;
    }
    if exists i, j :: 0 <= i < j < |scores| && scores[i] == 1.0 && scores[j] == 1.0 {
      var i, j :| 0 <= i < j < |scores| && scores[i] == 1.0 && scores[j] == 1.0;
      TwoMembers(ones, i, j);
    }
  }

  /** A sequence holding two different values has at least two elements. */
  lemma TwoMembers(s: seq<nat>, a: nat, b: nat)
    requires a in s && b in s && a != b
    ensures |s| > 1
  {
  }

  /** The definition a fresh analysis hands out fits the parameter set. */
  lemma ChosenFits(tasks: seq<TaskDefinition>, isSet: string -> bool)
    ensures Chosen(tasks, ScoresOf(tasks, isSet), true).Success? ==>
      Fits(Chosen(tasks, ScoresOf(tasks, isSet), true).value, isSet)
  {
    var scores := ScoresOf(tasks, isSet);
    if Chosen(tasks, scores, true).Success? {
      ChosenIsOnlyOne(tasks, scores);
      var i: nat :| OnlyOne(scores, i) && Chosen(tasks, scores, true).value == tasks[i];
      ScoreOne(tasks[i], isSet);
    }
  }

  /** An atom is set for a task exactly when isSetByName holds for it alone. */
  lemma SetInIsSetByName(cfg: seq<Entry>, lists: seq<seq<Value>>, a: string)
    requires |lists| == |cfg|
    ensures SetIn(cfg, lists)(a) <==> AllSet(cfg, lists, [a])
  {
    assert [a][0] == a;
  }

  /** One more atom for the cleaner. */
  lemma CleanedStep(cfg: seq<Entry>, lists: seq<seq<Value>>, atoms: seq<string>, i: nat)
    requires |lists| == |cfg| && i < |atoms|
    ensures var pre := Cleaned(cfg, lists, atoms[..i]);
      var k := Lookup(cfg, atoms[i]);
      Cleaned(cfg, lists, atoms[..i + 1])
        == if k.Some? && pre.0[k.value] != [] then (pre.0[k.value := []], pre.1 + 1) else pre
  {
    assert atoms[..i + 1][..i] == atoms[..i];
  }

  /** Cleaning empties exactly what clearParameter on the same names empties. */
  lemma {:induction false} CleanedEmpties(cfg: seq<Entry>, lists: seq<seq<Value>>, atoms: seq<string>)
    requires |lists| == |cfg|
    ensures Cleaned(cfg, lists, atoms).0 == Emptied(cfg, lists, atoms)
  {
    if |atoms| > 0 {
      CleanedEmpties(cfg, lists, atoms[..|atoms| - 1]);
    }
  }

  /** The count is the number of distinct named parameters that held values. */
  lemma {:induction false} CleanedCounts(cfg: seq<Entry>, lists: seq<seq<Value>>, atoms: seq<string>)
    requires |lists| == |cfg|
    ensures Cleaned(cfg, lists, atoms).1 == |HeldNamed(cfg, lists, atoms)|
  {
    var n := |atoms|;
    if n == 0 {
      assert HeldNamed(cfg, lists, atoms) == {};
    } else {
      var init := atoms[..n - 1];
      CleanedCounts(cfg, lists, init);
      CleanedEmpties(cfg, lists, init);
      EmptiedMeaning(cfg, lists, init);
      NamedStep(cfg, atoms, n - 1);
      assert atoms[..n] == atoms;
      var pre := Cleaned(cfg, lists, init);
      var before := HeldNamed(cfg, lists, init);
      var k := Lookup(cfg, atoms[n - 1]);
      if k.Some? && pre.0[k.value] != [] {
        assert k.value !in before;
        assert HeldNamed(cfg, lists, atoms) == before + {k.value};
      } else {
        assert HeldNamed(cfg, lists, atoms) == before;
      }
    }
  }

  // ---------------------------------------------------------------------
  // The task set
  // ---------------------------------------------------------------------

  /** isSetByName and clearParameter on a single name. */
  lemma OneName(cfg: seq<Entry>, lists: seq<seq<Value>>, atom: string)
    requires |lists| == |cfg|
    ensures var k := Lookup(cfg, atom);
      (AllSet(cfg, lists, [atom]) <==> k.Some? && lists[k.value] != [])
      && (k.Some? ==> ClearNamed(cfg, lists, [atom]) == (lists[k.value := []], Ok))
  {
    assert [atom][0] == atom;
    assert [atom][..0] == [];
    var k := Lookup(cfg, atom);
    if k.Some? {
      assert Known(cfg, [atom]);
      assert Emptied(cfg, lists, [atom]) == lists[k.value := []];
    }
  }

  /** Scores the tasks one after the other. */
  method ScoreAll(tasks: seq<TaskDefinition>, isSet: string -> bool) returns (scores: seq<real>)
    ensures scores == ScoresOf(tasks, isSet)
  {
    scores := [];
    var i := 0;
    while i < |tasks|
      invariant 0 <= i <= |tasks|
      invariant |scores| == i
      invariant forall k :: 0 <= k < i ==> scores[k] == Score(tasks[k], isSet)
    {
      scores := scores + [Score(tasks[i], isSet)];
      i := i + 1;
    }
  }

  /** Clears one ignorable atom: a set parameter is emptied and reported as a hit. */
  method CleanAtom(ps: ParamSet, atom: string) returns (hit: bool)
    requires ps.Valid()
    modifies ps.Lists()
    ensures ps.Valid() && ps.Config() == old(ps.Config())
    ensures var k := Lookup(old(ps.Config()), atom);
      hit == (k.Some? && old(ps.Values())[k.value] != [])
      && ps.Values() == if hit then old(ps.Values())[k.value := []] else old(ps.Values())
  {
    OneName(ps.Config(), ps.Values(), atom);
    hit := ps.IsSetByName([atom]);
    if hit {
      var _ := ps.ClearParameter([atom]);
    }
  }

  /** Clears the atoms one after the other, counting the hits. */
  method CleanAll(ps: ParamSet, atoms: seq<string>) returns (removed: nat)
    requires ps.Valid()
    modifies ps.Lists()
    ensures ps.Valid() && ps.Config() == old(ps.Config())
    ensures (ps.Values(), removed) == Cleaned(old(ps.Config()), old(ps.Values()), atoms)
  {
    ghost var cfg, before := ps.Config(), ps.Values();
    removed := 0;
    var i := 0;
    assert atoms[..0] == [];
    while i < |atoms|
      invariant 0 <= i <= |atoms|
      invariant ps.Valid() && ps.Config() == cfg
      invariant ps.Values() == Cleaned(cfg, before, atoms[..i]).0
      invariant removed == Cleaned(cfg, before, atoms[..i]).1
    {
      CleanedStep(cfg, before, atoms, i);
      var hit := CleanAtom(ps, atoms[i]);
      if hit {
        removed := removed + 1;
      }
      i := i + 1;
    }
    assert atoms[..i] == atoms;
  }

  class TaskSet {
    var tasks: seq<TaskDefinition>
    var scores: seq<real>
    var analyzed: bool
    var target: ParamSet?

    /** An analysis scored every task, against a parameter set it remembers. */
    ghost predicate Valid()
      reads this
    {
      analyzed ==> |scores| == |tasks| && target != null
    }

    /** TASK_SET_new: no tasks, not analyzed. */
    constructor ()
      ensures Valid() && tasks == [] && scores == [] && !analyzed && target == null
    {
      tasks := [];
      scores := [];
      analyzed := false;
      target := null;
    }

    /** TASK_SET_add: appends the definition and drops the analysis. */
    method Add(t: TaskDefinition)
      requires Valid()
      modifies this
      ensures Valid()
      ensures tasks == old(tasks) + [t] && !analyzed
      ensures scores == old(scores) && target == old(target)
    {
      tasks := tasks + [t];
      analyzed := false;
    }

    /**
     * TASK_SET_analyzeConsistency: scores every task against the parameter
     * set. An empty task set and a set other than the one analyzed before are
     * errors that change nothing.
     */
    method Analyze(ps: ParamSet, sensitivity: real) returns (st: Status)
      requires Valid()
      modifies this
      ensures Valid() && tasks == old(tasks)
      ensures |tasks| == 0 ==> st == TaskSetHasNoDefinitions
      ensures |tasks| > 0 && old(target) != null && old(target) != ps ==> st == TaskUnableToAnalyzeParamSetChanged
      ensures st == Ok <==> |tasks| > 0 && (old(target) == null || old(target) == ps)
      ensures st != Ok ==> analyzed == old(analyzed) && scores == old(scores) && target == old(target)
      ensures st == Ok ==> analyzed && target == ps && scores == ScoresOf(tasks, SetIn(old(ps.Config()), old(ps.Values())))
    {
      if |tasks| == 0 {
        return TaskSetHasNoDefinitions;
      }
      if target != null && target != ps {
        return TaskUnableToAnalyzeParamSetChanged;
      }
      var sc := ScoreAll(tasks, SetIn(ps.Config(), ps.Values()));
      scores := sc;
      target := ps;
      analyzed := true;
      st := Ok;
    }

    /** TASK_SET_getConsistentTask, counting the tasks at 1 and remembering the first. */
    method GetConsistentTask() returns (r: Result<TaskDefinition>)
      requires Valid()
      ensures r == Chosen(tasks, scores, analyzed)
    {
      if |tasks| == 0 {
        return Failure(TaskSetHasNoDefinitions);
      }
      if !analyzed {
        return Failure(TaskSetNotAnalyzed);
      }
      var count, first := 0, 0;
      var i := 0;
      while i < |scores|
        invariant 0 <= i <= |scores|
        invariant count == |OnesIn(scores[..i])|
        invariant count > 0 ==> first == OnesIn(scores[..i])[0]
      {
        assert scores[..i + 1][..i] == scores[..i];
        if scores[i] == 1.0 {
          if count == 0 {
            first := i;
          }
          count := count + 1;
        }
        i := i + 1;
      }
      assert scores[..i] == scores;
      if count == 0 {
        return Failure(TaskZeroConsistentTasks);
      }
      if count > 1 {
        return Failure(TaskMultipleConsistentTasks);
      }
      return Success(tasks[first]);
    }

    /**
     * TASK_SET_cleanIgnored: empties every ignorable parameter of the definition in
     * the analyzed parameter set and counts those that held values.
     */
    method CleanIgnored(t: TaskDefinition) returns (st: Status, removed: nat)
      requires Valid() && (analyzed ==> target.Valid())
      modifies if analyzed then target.Lists() else {}
      ensures !analyzed ==> st == TaskSetNotAnalyzed && removed == 0
      ensures analyzed ==> (st == Ok && target.Valid() && target.Config() == old(target.Config())
        && (target.Values(), removed) == Cleaned(old(target.Config()), old(target.Values()), t.ignorable))
    {
      if !analyzed {
        return TaskSetNotAnalyzed, 0;
      }
      removed := CleanAll(target, t.ignorable);
      st := Ok;
    }
  }
}

/**
 * The unit tests' scenarios, stated over the model. "_"-prefixed atoms are
 * parameters that are never set.
 */
module TaskDefExamples {
  import opened Errors
  import opened ParamValue
  import opened Parameter
  import opened ParamSet
  import opened TaskDef

  /** The set atoms: every atom in the scenarios is one letter or starts with "_". */
  function SetOf(letters: set<char>): string -> bool
  {
    a => |a| == 1 && a[0] in letters
  }

  function Task(id: int, mandatory: seq<string>, atLeastOne: seq<string>, forbidden: seq<string>, ignorable: seq<string>): TaskDefinition
  {
    TaskDefinition(id, "Task", mandatory, atLeastOne, forbidden, ignorable)
  }

  const TableSet := SetOf({'a', 'd', 'x', 'y', 'z', 'f', 'g', 'l'})

  /** src/test/task_def_test.c, the first two rows: tasks that fit score 1. */
  lemma ScoreTableFits()
    ensures Score(Task(0, ["a"], [], [], []), TableSet) == 1.0
    ensures Score(Task(1, ["a"], ["_c", "d"], [], []), TableSet) == 1.0
  {
  }

  /** An unset mandatory atom against small at-least-one groups. */
  lemma ScoreTableHalves()
    ensures Score(Task(2, ["_b"], ["_c", "d"], [], []), TableSet) == 0.5
    ensures Score(Task(3, ["_b"], ["_c"], [], []), TableSet) == 0.0
    ensures Score(Task(4, ["_b"], ["d"], [], []), TableSet) == 0.5
  {
  }

  /** Larger at-least-one groups raise the weight with every set atom. */
  lemma ScoreTableGroups()
    ensures -0.001 < Score(Task(5, ["_b"], ["f", "g"], [], []), TableSet) - 0.666 < 0.001
    ensures Score(Task(6, ["_b"], ["f", "g", "x", "y"], [], []), TableSet) == 0.8
  {
  }

  /** Set forbidden atoms count against the definition. */
  lemma ScoreTableForbidden()
    ensures Score(Task(7, ["_b"], ["f", "g", "x", "y"], ["d"], []), TableSet) == 0.6
    ensures Score(Task(8, ["_b"], ["f", "g", "x", "y"], ["d", "l"], []), TableSet) == 0.4
  {
  }

  /** Eight set atoms in the at-least-one group. */
  lemma ScoreTableWide()
    ensures -0.001 < Score(Task(9, ["_b"], ["a", "d", "x", "y", "z", "f", "g", "l"], [], []), TableSet) - 0.888 < 0.001
  {
    var t := Task(9, ["_b"], ["a", "d", "x", "y", "z", "f", "g", "l"], [], []);
    WideGroupSet();
    assert Merit(t, TableSet) == 8 && Weight(t, TableSet) == 9 by {
      assert |Picked(t.mandatory, TableSet)| == 0;
    }
  }

  lemma WideGroupSet()
    ensures |Picked(["a", "d", "x", "y", "z", "f", "g", "l"], TableSet)| == 8
  {
  }

  /** Nothing set: the score is 0 or, with set forbidden atoms, negative. */
  lemma ScoreTableUnset()
    ensures Score(Task(10, ["_b"], [], [], []), TableSet) == 0.0
    ensures Score(Task(11, ["_b"], ["_c"], [], []), TableSet) == 0.0
    ensures Score(Task(12, ["_b"], ["_c"], ["a"], []), TableSet) == -0.5
    ensures Score(Task(13, ["_b"], ["_c"], ["a", "d"], []), TableSet) == -1.0
  {
  }

  /** Three set forbidden atoms outweigh what the definition has set. */
  lemma ScoreTableOutweighed()
    ensures Score(Task(14, ["_b"], ["_c", "y"], ["a", "d", "x"], []), TableSet) == -1.0
  {
  }

  /** Two more set mandatory atoms bring the score back to 0. */
  lemma ScoreTableBalanced()
    ensures Score(Task(15, ["_b", "z", "f"], ["_c", "y"], ["a", "d", "x"], []), TableSet) == 0.0
  {
  }

  /** getMoreConsistent with epsilon 0.1: equal scores, told apart by coverage or not at all. */
  lemma MoreConsistentExamples()
    ensures MoreConsistent(Task(0, ["a", "d", "_b", "_c"], [], [], []), Task(1, ["a", "_b"], [], [], []), TableSet, 0.1) == FirstTask
    ensures MoreConsistent(Task(2, ["a", "_b", "_c"], ["d"], [], []), Task(3, ["a", "_b"], [], [], []), TableSet, 0.1) == FirstTask
    ensures MoreConsistent(Task(4, ["a"], [], [], []), Task(5, ["a"], [], [], []), TableSet, 0.1) == Neither
    ensures MoreConsistent(Task(6, ["a", "d", "_b", "_c"], [], [], []), Task(7, ["a", "_b", "_c"], ["d"], [], []), TableSet, 0.1) == Neither
  {
  }

  const ReportSet := SetOf({'a', 'd', 'x', 'y', 'z', 'f', 'g'})

  /** The repair report names unset mandatory atoms, an unmet group in full, and set forbidden atoms. */
  lemma RepairExamples()
    ensures RepairOf(Task(0, ["a", "_b", "_c"], ["x", "y"], [], []), ReportSet) == Repair(["_b", "_c"], [], [])
    ensures RepairOf(Task(1, ["a"], ["_b", "_c"], [], []), ReportSet) == Repair([], ["_b", "_c"], [])
    ensures RepairOf(Task(2, ["a"], ["z"], ["x", "_h"], []), ReportSet) == Repair([], [], ["x"])
  {
  }

  /** All three parts of the report at once. */
  lemma RepairExamplesMixed()
    ensures RepairOf(Task(3, ["a", "_b"], ["z"], ["x", "g"], []), ReportSet) == Repair(["_b"], [], ["x", "g"])
    ensures RepairOf(Task(3, ["a", "_b"], ["_h"], ["x"], []), ReportSet) == Repair(["_b"], ["_h"], ["x"])
  {
  }

  /** The ignoring report names the set ignorable atoms in their order. */
  lemma IgnoredExamples()
    ensures IgnoredOf(Task(0, ["a"], ["x", "y"], [], ["z"]), ReportSet) == ["z"]
    ensures IgnoredOf(Task(1, ["a"], ["_b", "_c"], [], ["z", "x", "_h"]), ReportSet) == ["z", "x"]
    ensures IgnoredOf(Task(2, ["a"], ["z"], ["x", "_h"], []), ReportSet) == []
    ensures IgnoredOf(Task(3, ["a", "_b"], ["z"], ["x", "g"], ["_h"]), ReportSet) == []
  {
  }

  const LifeSet := SetOf({'a', 'd', 'e', 'x', 'y', 'z', 'f', 'g', 'i'})

  /** The four tasks of the first analysis: each misses the unset mandatory atom _b. */
  const FirstTasks := [
    Task(0, ["a", "_b"], [], [], []),
    Task(1, ["a", "_b", "_c", "d"], [], [], []),
    Task(2, ["a", "_b", "d"], [], [], []),
    Task(3, ["a", "_b", "d"], ["x"], [], [])]

  /** Then tasks 4, 5, 6 and 8 are added; only task 4 fits ("d_c" names no parameter). */
  const SecondTasks := FirstTasks + [
    Task(4, ["a"], [], [], []),
    Task(5, ["a", "d"], ["_b"], [], []),
    Task(6, ["a", "d", "g", "f", "x", "y", "z", "e", "i"], ["_b"], [], []),
    Task(8, ["a", "d_c"], ["_b"], ["x", "y", "z", "i"], [])]

  /** Then task 7, which fits as well. */
  const ThirdTasks := SecondTasks + [Task(7, ["a", "d"], [], [], [])]

  /** No task of the first analysis scores 1. */
  lemma LifecycleZero()
    ensures Chosen(FirstTasks, ScoresOf(FirstTasks, LifeSet), true) == Failure(TaskZeroConsistentTasks)
  {
    var sc := ScoresOf(FirstTasks, LifeSet);
    forall i | 0 <= i < |sc|
      ensures sc[i] != 1.0
    {
      ScoreOne(FirstTasks[i], LifeSet);
      assert !LifeSet(FirstTasks[i].mandatory[1]);
    }
    ChosenZero(FirstTasks, sc);
  }

  /** Task 4 is the only task of the second analysis at 1. */
  lemma LifecycleUnique()
    ensures Chosen(SecondTasks, ScoresOf(SecondTasks, LifeSet), true) == Success(SecondTasks[4])
    ensures SecondTasks[4].id == 4
  {
    var sc := ScoresOf(SecondTasks, LifeSet);
    forall i | 0 <= i < |sc| && i != 4
      ensures sc[i] != 1.0
    {
      NotFitting(i);
    }
    assert Fits(SecondTasks[4], LifeSet);
    ScoreOne(SecondTasks[4], LifeSet);
    ChosenOnlyOne(SecondTasks, sc, 4);
  }

  /** Every task of the second analysis but task 4 misses something. */
  lemma NotFitting(i: nat)
    requires i < |SecondTasks| && i != 4
    ensures Score(SecondTasks[i], LifeSet) != 1.0
  {
    ScoreOne(SecondTasks[i], LifeSet);
    Unfit(i);
  }

  /** Every task of the second analysis but task 4 misses a mandatory name, an alternative or a forbidden one. */
  lemma Unfit(i: nat)
    requires i < |SecondTasks| && i != 4
    ensures !Fits(SecondTasks[i], LifeSet)
  {
    var t := SecondTasks[i];
    if i < 4 {
      assert !LifeSet(t.mandatory[1]);
    } else if i < 7 {
      assert !LifeSet(t.atLeastOne[0]);
    } else {
      assert LifeSet(t.forbidden[0]);
    }
  }

  /** With task 7 added, tasks 4 and 7 both score 1. */
  lemma LifecycleMultiple()
    ensures Chosen(ThirdTasks, ScoresOf(ThirdTasks, LifeSet), true) == Failure(TaskMultipleConsistentTasks)
  {
    var sc := ScoresOf(ThirdTasks, LifeSet);
    assert Fits(ThirdTasks[4], LifeSet) && Fits(ThirdTasks[8], LifeSet);
    ScoreOne(ThirdTasks[4], LifeSet);
    ScoreOne(ThirdTasks[8], LifeSet);
    assert sc[4] == 1.0 && sc[8] == 1.0;
    ChosenMultiple(ThirdTasks, sc);
  }

  /** A parameter with its name only. */
  function Plain(name: string): Entry
  {
    Entry(name, None, NoControls, {})
  }

  /** The set of the clean-up scenario: every parameter but _b, _c and _h holds one value. */
  const CleanCfg := [Plain("a"), Plain("_b"), Plain("_c"), Plain("d"), Plain("e"), Plain("x"),
                     Plain("y"), Plain("z"), Plain("f"), Plain("g"), Plain("_h"), Plain("i")]

  const One := [Value(None, None, 0, 0, 0)]

  const CleanLists: seq<seq<Value>> := [One, [], [], One, One, One, One, One, One, One, [], One]

  lemma LookupI()
    ensures Lookup(CleanCfg, "i") == Some(11)
  {
    assert LookupFrom(CleanCfg, "i", 8) == Some(11);
    assert LookupFrom(CleanCfg, "i", 4) == Some(11);
  }

  lemma LookupZ()
    ensures Lookup(CleanCfg, "z") == Some(7)
  {
    assert LookupFrom(CleanCfg, "z", 4) == Some(7);
  }

  lemma CleanFirst()
    ensures Cleaned(CleanCfg, CleanLists, ["i"]) == (CleanLists[11 := []], 1)
  {
    LookupI();
    assert ["i"][..0] == [];
  }

  lemma CleanSecond()
    ensures Cleaned(CleanCfg, CleanLists, ["i", "x"]) == (CleanLists[11 := []][5 := []], 2)
  {
    CleanFirst();
    assert ["i", "x"][..1] == ["i"];
  }

  /** Cleaning the ignorable atoms i, x and z of the chosen task removes three parameters' values. */
  lemma CleanIgnoredExample()
    ensures var (after, removed) := Cleaned(CleanCfg, CleanLists, ["i", "x", "z"]);
      removed == 3 && after[11] == [] && after[5] == [] && after[7] == []
  {
    LookupZ();
    CleanSecond();
    assert ["i", "x", "z"][..2] == ["i", "x"];
  }
}

/**
 * PARAM_SET_parseCMD: the command line is read token by token after the
 * program name. A token names a parameter ("--name", or "-x" for a one-letter
 * name), a bunch of one-letter flags ("-abc") or nothing. A named parameter
 * then takes its value(s) from the tokens that follow, as its parse option
 * says; a token naming nothing is reported as a typo or an unknown, with its
 * leading dashes removed.
 *
 * The grammar is a pure function from the arguments to the sequence of steps
 * the parser performs (Parse); ParseCmd walks the arguments with a moving
 * index and a pending state and performs those steps on a parameter set.
 */
module CommandLine {
  import opened Errors
  import opened ParamValue
  import opened Parameter
  import opened ParamSet
  import Typo

  /** What a token names: one parameter, a bunch of one-letter parameters, or nothing. */
  datatype Token = Flag(k: nat) | Bunch(ks: seq<nat>) | Loose

  /** What the parser waits for: nothing, one value for k, or a sequence of values for k. */
  datatype Pending = Nothing | Awaits(k: nat) | Collects(k: nat, got: bool)

  /** One effect on the set: a value (or NULL) for parameter k, or a reported name. */
  datatype Step = Put(k: nat, text: Option<string>) | Unmatched(name: string)

  /** Every parameter a step or a pending state names is in the set. */
  predicate InSet(cfg: seq<Entry>, steps: seq<Step>)
  {
    forall j :: 0 <= j < |steps| && steps[j].Put? ==> steps[j].k < |cfg|
  }

  predicate Pends(cfg: seq<Entry>, p: Pending)
  {
    !p.Nothing? ==> p.k < |cfg|
  }

  /** A token that could be a parameter: a dash and at least one more character. */
  predicate Potential(t: string)
  {
    |t| >= 2 && t[0] == '-'
  }

  /** The token without its leading dashes. */
  function DropDashes(t: string): (r: string)
    ensures |r| <= |t| && r == t[|t| - |r|..]
    ensures |r| > 0 ==> r[0] != '-'
    ensures forall j :: 0 <= j < |t| - |r| ==> t[j] == '-'
  {
    if |t| > 0 && t[0] == '-' then DropDashes(t[1..]) else t
  }

  /** The name a token is reported under: its leading dashes go, unless nothing would be left. */
  function Stripped(t: string): string
  {
    var d := DropDashes(t);
    if d == "" then t else d
  }

  /** The parameters answering to each letter, when every letter names one. */
  function BunchOf(cfg: seq<Entry>, letters: string): (r: Option<seq<nat>>)
    ensures r.Some? ==> |r.value| == |letters|
    ensures r.Some? ==> forall j :: 0 <= j < |letters| ==> Lookup(cfg, [letters[j]]) == Some(r.value[j])
    ensures r.None? <==> exists j :: 0 <= j < |letters| && Lookup(cfg, [letters[j]]).None?
  {
    if |letters| == 0 then Some([])
    else
      match Lookup(cfg, [letters[0]])
      case None => None
      case Some(k) =>
        var rest := BunchOf(cfg, letters[1..]);
        if rest.None? then None else Some([k] + rest.value)
  }

  /**
   * What a token names: "--name" any parameter by name or alias, "-x" a
   * one-letter parameter, "-abc" a bunch when every letter names a parameter.
   */
  function Recognize(cfg: seq<Entry>, t: string): (r: Token)
    ensures r.Flag? ==> r.k < |cfg|
    ensures r.Bunch? ==> forall j :: 0 <= j < |r.ks| ==> r.ks[j] < |cfg|
  {
    if |t| > 2 && t[0] == '-' && t[1] == '-' then
      (match Lookup(cfg, t[2..]) case Some(k) => Flag(k) case None => Loose)
    else if |t| == 2 && t[0] == '-' && t[1] != '-' then
      (match Lookup(cfg, t[1..]) case Some(k) => Flag(k) case None => Loose)
    else if |t| > 2 && t[0] == '-' && t[1] != '-' then
      (match BunchOf(cfg, t[1..]) case Some(ks) => Bunch(ks) case None => Loose)
    else Loose
  }

  /** A NULL value for each of the parameters, in order. */
  function Nulls(ks: seq<nat>): (r: seq<Step>)
    ensures |r| == |ks| && forall j :: 0 <= j < |ks| ==> r[j] == Put(ks[j], None)
  {
    if |ks| == 0 then [] else [Put(ks[0], None)] + Nulls(ks[1..])
  }

  /**
   * A token read fresh: a value-less flag stores NULL, a flag with a value or
   * a sequence of values waits for them, every parameter of a bunch stores
   * NULL, and a token naming nothing is reported.
   */
  function Fresh(cfg: seq<Entry>, t: string): (r: (seq<Step>, Pending))
    ensures InSet(cfg, r.0) && Pends(cfg, r.1)
  {
    match Recognize(cfg, t)
    case Flag(k) =>
      if HasNoValue in cfg[k].option then ([Put(k, None)], Nothing)
      else if HasValueSequence in cfg[k].option then ([], Collects(k, false))
      else ([], Awaits(k))
    case Bunch(ks) => (Nulls(ks), Nothing)
    case Loose => ([Unmatched(Stripped(t))], Nothing)
  }

  /**
   * Whether a parameter waiting for one value takes the token: with
   * HAS_VALUE always (unless it breaks on a potential parameter), by default
   * only a token that could not be a parameter.
   */
  predicate Takes(e: Entry, t: string)
  {
    if HasValue in e.option then !(BreakWithPotentialParameter in e.option && Potential(t))
    else !Potential(t)
  }

  /** Whether a sequence of values ends at the token: at a parameter's name, or at a dash, as configured. */
  predicate Breaks(cfg: seq<Entry>, e: Entry, t: string)
  {
    (BreakWithExistingParameterMatch in e.option && Recognize(cfg, t).Flag?)
    || (BreakWithDashPrefix in e.option && |t| > 0 && t[0] == '-')
  }

  /** The steps one token causes in a pending state, and the state after it. */
  function Local(cfg: seq<Entry>, p: Pending, t: string): (r: (seq<Step>, Pending))
    requires Pends(cfg, p)
    ensures InSet(cfg, r.0) && Pends(cfg, r.1)
  {
    match p
    case Nothing => Fresh(cfg, t)
    case Awaits(k) =>
      if Takes(cfg[k], t) then ([Put(k, Some(t))], Nothing)
      else
        var f := Fresh(cfg, t);
        ([Put(k, None)] + f.0, f.1)
    case Collects(k, got) =>
      if !Breaks(cfg, cfg[k], t) then ([Put(k, Some(t))], Collects(k, true))
      else
        var f := Fresh(cfg, t);
        ((if got then [] else [Put(k, None)]) + f.0, f.1)
  }

  /** At the end of the line a parameter still waiting for a value, or with an empty sequence, stores NULL. */
  function Closing(p: Pending): (r: seq<Step>)
    ensures |r| <= 1 && (|r| == 1 ==> !p.Nothing? && r[0] == Put(p.k, None))
  {
    match p
    case Nothing => []
    case Awaits(k) => [Put(k, None)]
    case Collects(k, got) => if got then [] else [Put(k, None)]
  }

  /** The steps of the tokens from position i on, in pending state p. */
  function Steps(cfg: seq<Entry>, argv: seq<string>, i: nat, p: Pending): (r: seq<Step>)
    requires Pends(cfg, p)
    ensures InSet(cfg, r)
    decreases |argv| - i
  {
    if i >= |argv| then Closing(p)
    else
      var (now, next) := Local(cfg, p, argv[i]);
      now + Steps(cfg, argv, i + 1, next)
  }

  /** One token read: its own steps, then the steps of the rest in the state it leaves. */
  lemma StepAt(cfg: seq<Entry>, argv: seq<string>, i: nat, p: Pending)
    requires i < |argv| && Pends(cfg, p)
    ensures Steps(cfg, argv, i, p) == Local(cfg, p, argv[i]).0 + Steps(cfg, argv, i + 1, Local(cfg, p, argv[i]).1)
  {
  }

  /** The steps of a command line; the first string is the program name. */
  function Parse(cfg: seq<Entry>, argv: seq<string>): (r: seq<Step>)
    ensures InSet(cfg, r)
  {
    Steps(cfg, argv, 1, Nothing)
  }

  /** The set's typo classifier: a name is a typo when the parameter names offer suggestions for it. */
  function Classifier(cfg: seq<Entry>): (string -> bool)
    requires Typo.NamesOk(NamesOf(cfg))
  {
    name => Typo.IsTypo(name, NamesOf(cfg))
  }

  /**
   * One step on a snapshot: a value is added as PARAM_SET_add adds it; a name
   * is reported as a typo when the classifier says so (the set passes its own,
   * Classifier), as an unknown otherwise, and a report is not an error.
   */
  function Apply(cfg: seq<Entry>, s: Snapshot, step: Step, source: Option<string>, priority: int,
                 classify: string -> bool): (r: (Snapshot, Status))
    requires WellFormed(cfg, s) && (step.Put? ==> step.k < |cfg|)
    ensures WellFormed(cfg, r.0)
  {
    match step
    case Put(k, text) =>
      var o := AddOutcome(cfg[k].controls, s.lists[k], text, source, priority);
      (s.(lists := s.lists[k := o.0]), o.1)
    case Unmatched(name) =>
      var stray := Stray(name, None, source, priority);
      if classify(name) then (s.(typos := s.typos + [stray]), Ok)
      else (s.(unknowns := s.unknowns + [stray]), Ok)
  }

  /** The steps from position j on, in order, stopping at the first one the set refuses. */
  function RunFrom(cfg: seq<Entry>, s: Snapshot, steps: seq<Step>, j: nat, source: Option<string>, priority: int, classify: string -> bool)
    : (r: (Snapshot, Status))
    requires WellFormed(cfg, s) && InSet(cfg, steps)
    ensures WellFormed(cfg, r.0)
    decreases |steps| - j
  {
    if j >= |steps| then (s, Ok)
    else
      var (t, st) := Apply(cfg, s, steps[j], source, priority, classify);
      if st != Ok then (t, st) else RunFrom(cfg, t, steps, j + 1, source, priority, classify)
  }

  /** The steps in order, stopping at the first one the set refuses. */
  function Run(cfg: seq<Entry>, s: Snapshot, steps: seq<Step>, source: Option<string>, priority: int, classify: string -> bool): (r: (Snapshot, Status))
    requires WellFormed(cfg, s) && InSet(cfg, steps)
    ensures WellFormed(cfg, r.0)
  {
    RunFrom(cfg, s, steps, 0, source, priority, classify)
  }

  /** Past the steps of a, running a + b is running b. */
  lemma {:induction false} RunFromShift(cfg: seq<Entry>, s: Snapshot, a: seq<Step>, b: seq<Step>, m: nat,
                                        source: Option<string>, priority: int, classify: string -> bool)
    requires WellFormed(cfg, s) && InSet(cfg, a + b) && InSet(cfg, b)
    ensures RunFrom(cfg, s, a + b, |a| + m, source, priority, classify) == RunFrom(cfg, s, b, m, source, priority, classify)
    decreases |b| - m
  {
    if m < |b| {
      var ab := a + b;
      assert ab[|a| + m] == b[m];
      var t := Apply(cfg, s, b[m], source, priority, classify);
      assert RunFrom(cfg, s, ab, |a| + m, source, priority, classify)
          == if t.1 != Ok then t else RunFrom(cfg, t.0, ab, |a| + m + 1, source, priority, classify);
      assert RunFrom(cfg, s, b, m, source, priority, classify)
          == if t.1 != Ok then t else RunFrom(cfg, t.0, b, m + 1, source, priority, classify);
      if t.1 == Ok {
        RunFromShift(cfg, t.0, a, b, m + 1, source, priority, classify);
      }
    }
  }

  /** Running two stretches of steps is running the first, then, unless it failed, the second. */
  lemma {:induction false} RunFromConcat(cfg: seq<Entry>, s: Snapshot, a: seq<Step>, b: seq<Step>, j: nat,
                                         source: Option<string>, priority: int, classify: string -> bool)
    requires WellFormed(cfg, s) && InSet(cfg, a) && InSet(cfg, b) && InSet(cfg, a + b) && j <= |a|
    ensures var r := RunFrom(cfg, s, a, j, source, priority, classify);
      RunFrom(cfg, s, a + b, j, source, priority, classify) == if r.1 != Ok then r else RunFrom(cfg, r.0, b, 0, source, priority, classify)
    decreases |a| - j
  {
    if j < |a| {
      assert (a + b)[j] == a[j];
      var t := Apply(cfg, s, a[j], source, priority, classify);
      if t.1 == Ok {
        RunFromConcat(cfg, t.0, a, b, j + 1, source, priority, classify);
      }
    } else {
      RunFromShift(cfg, s, a, b, 0, source, priority, classify);
    }
  }

  lemma RunConcat(cfg: seq<Entry>, s: Snapshot, a: seq<Step>, b: seq<Step>, source: Option<string>, priority: int, classify: string -> bool)
    requires WellFormed(cfg, s) && InSet(cfg, a) && InSet(cfg, b)
    ensures InSet(cfg, a + b)
    ensures var r := Run(cfg, s, a, source, priority, classify);
      Run(cfg, s, a + b, source, priority, classify) == if r.1 != Ok then r else Run(cfg, r.0, b, source, priority, classify)
  {
    assert InSet(cfg, a + b);
    RunFromConcat(cfg, s, a, b, 0, source, priority, classify);
  }

  /** Files a name that matched no parameter, as the set files an unknown name. */
  method Report(ps: ParamSet, name: string, source: Option<string>, priority: int) returns (st: Status)
    requires ps.Valid()
    modifies ps
    ensures ps.Valid() && ps.Config() == old(ps.Config())
    ensures (ps.State(), st) == Apply(old(ps.Config()), old(ps.State()), Unmatched(name), source, priority,
                                          Classifier(old(ps.Config())))
  {
    ps.ConfigNames();
    var stray := Stray(name, None, source, priority);
    if Typo.IsTypo(name, NamesOf(ps.Config())) {
      ps.typos := ps.typos + [stray];
    } else {
      ps.unknowns := ps.unknowns + [stray];
    }
    st := Ok;
  }

  /** Performs one step on the set. */
  method PerformOne(ps: ParamSet, step: Step, source: Option<string>, priority: int) returns (st: Status)
    requires ps.Valid() && (step.Put? ==> step.k < |ps.Config()|)
    modifies ps, ps.Lists()
    ensures ps.Valid() && ps.Config() == old(ps.Config())
    ensures (ps.State(), st) == Apply(old(ps.Config()), old(ps.State()), step, source, priority, Classifier(old(ps.Config())))
  {
    ps.ConfigNames();
    match step
    case Put(k, text) =>
      st := ps.AddValueAt(k, text, source, priority);
    case Unmatched(name) =>
      st := Report(ps, name, source, priority);
  }

  /** Performs the steps in order and stops at the first one the set refuses. */
  method Perform(ps: ParamSet, steps: seq<Step>, source: Option<string>, priority: int) returns (st: Status)
    requires ps.Valid() && InSet(ps.Config(), steps)
    modifies ps, ps.Lists()
    ensures ps.Valid() && ps.Config() == old(ps.Config())
    ensures (ps.State(), st) == Run(old(ps.Config()), old(ps.State()), steps, source, priority, Classifier(old(ps.Config())))
  {
    ghost var cfg, s0 := ps.Config(), ps.State();
    ps.ConfigNames();
    ghost var classify := Classifier(cfg);
    var j := 0;
    while j < |steps|
      invariant 0 <= j <= |steps|
      invariant ps.Valid() && ps.Config() == cfg && WellFormed(cfg, ps.State())
      invariant Run(cfg, s0, steps, source, priority, classify) == RunFrom(cfg, ps.State(), steps, j, source, priority, classify)
    {
      st := PerformOne(ps, steps[j], source, priority);
      if st != Ok {
        return;
      }
      j := j + 1;
    }
    st := Ok;
  }

  /**
   * PARAM_SET_parseCMD: walks the arguments after the program name with the
   * pending state, performing each token's steps, and stops at the first
   * value the set refuses; typos and unknowns are reported, not refused.
   */
  method ParseCmd(ps: ParamSet, argv: seq<string>, source: Option<string>, priority: int) returns (st: Status)
    requires ps.Valid()
    modifies ps, ps.Lists()
    ensures ps.Valid() && ps.Config() == old(ps.Config())
    ensures (ps.State(), st) == Run(old(ps.Config()), old(ps.State()), Parse(old(ps.Config()), argv), source, priority,
                                        Classifier(old(ps.Config())))
  {
    var cfg := ps.Config();
    ghost var s0 := ps.State();
    ps.ConfigNames();
    ghost var classify := Classifier(cfg);
    var pending := Nothing;
    var i := 1;
    while i < |argv|
      invariant 1 <= i
      invariant ps.Valid() && ps.Config() == cfg && WellFormed(cfg, ps.State()) && Pends(cfg, pending)
      invariant Run(cfg, s0, Parse(cfg, argv), source, priority, classify)
             == Run(cfg, ps.State(), Steps(cfg, argv, i, pending), source, priority, classify)
    {
      var (now, next) := Local(cfg, pending, argv[i]);
      RunConcat(cfg, ps.State(), now, Steps(cfg, argv, i + 1, next), source, priority, classify);
      st := Perform(ps, now, source, priority);
      if st != Ok {
        return;
      }
      pending := next;
      i := i + 1;
    }
    st := Perform(ps, Closing(pending), source, priority);
  }

  // ---------------------------------------------------------------------
  // What a parse stores and reports
  // ---------------------------------------------------------------------

  /** The value one step stores for parameter k when every value is accepted as given. */
  function StoredBy(step: Step, k: nat, source: Option<string>, priority: int): seq<Value>
  {
    if step.Put? && step.k == k then [Value(step.text, source, priority, 0, 0)] else []
  }

  /** The values the steps from position j on store for parameter k when every value is accepted as given. */
  function Stored(steps: seq<Step>, k: nat, j: nat, source: Option<string>, priority: int): seq<Value>
    decreases |steps| - j
  {
    if j >= |steps| then [] else StoredBy(steps[j], k, source, priority) + Stored(steps, k, j + 1, source, priority)
  }

  /** The report one step files as a typo (typo == true) or as an unknown. */
  function ReportedBy(step: Step, typo: bool, source: Option<string>, priority: int, classify: string -> bool): seq<Stray>
  {
    if step.Unmatched? && classify(step.name) == typo
    then [Stray(step.name, None, source, priority)] else []
  }

  /** The reports the steps from position j on file as typos (typo == true) or as unknowns, in order. */
  function Reported(steps: seq<Step>, j: nat, typo: bool, source: Option<string>, priority: int, classify: string -> bool)
    : seq<Stray>
    decreases |steps| - j
  {
    if j >= |steps| then []
    else ReportedBy(steps[j], typo, source, priority, classify) + Reported(steps, j + 1, typo, source, priority, classify)
  }

  /** No parameter has a convert, format or content hook. */
  predicate Plain(cfg: seq<Entry>)
  {
    forall j :: 0 <= j < |cfg| ==>
      cfg[j].controls.format.None? && cfg[j].controls.content.None? && cfg[j].controls.convert.None?
  }

  /** Without hooks and with a valid priority one step is never refused. */
  lemma ApplyPlain(cfg: seq<Entry>, s: Snapshot, step: Step, source: Option<string>, priority: int, classify: string -> bool)
    requires WellFormed(cfg, s) && (step.Put? ==> step.k < |cfg|) && Plain(cfg) && InRange(priority)
    ensures var r := Apply(cfg, s, step, source, priority, classify);
      r.1 == Ok
      && (forall k :: 0 <= k < |cfg| ==> r.0.lists[k] == s.lists[k] + StoredBy(step, k, source, priority))
      && r.0.typos == s.typos + ReportedBy(step, true, source, priority, classify)
      && r.0.unknowns == s.unknowns + ReportedBy(step, false, source, priority, classify)
  {
  }

  /**
   * Without hooks and with a valid priority the set refuses nothing: each
   * parameter receives, after its old values, exactly the values the steps
   * address to it, in order.
   */
  lemma {:induction false} RunPlain(cfg: seq<Entry>, s: Snapshot, steps: seq<Step>, j: nat, source: Option<string>, priority: int, classify: string -> bool)
    requires WellFormed(cfg, s) && InSet(cfg, steps) && Plain(cfg) && InRange(priority)
    ensures var r := RunFrom(cfg, s, steps, j, source, priority, classify);
      r.1 == Ok
      && forall k :: 0 <= k < |cfg| ==> r.0.lists[k] == s.lists[k] + Stored(steps, k, j, source, priority)
    decreases |steps| - j
  {
    if j < |steps| {
      var t := Apply(cfg, s, steps[j], source, priority, classify).0;
      ApplyPlain(cfg, s, steps[j], source, priority, classify);
      RunPlain(cfg, t, steps, j + 1, source, priority, classify);
    }
  }

  /** The typo list (typo == true) or the unknown list of a snapshot. */
  function ReportList(s: Snapshot, typo: bool): seq<Stray>
  {
    if typo then s.typos else s.unknowns
  }

  /** Without hooks and with a valid priority one step adds its report, if any, to its list. */
  lemma ApplyReports(cfg: seq<Entry>, s: Snapshot, step: Step, typo: bool, source: Option<string>, priority: int, classify: string -> bool)
    requires WellFormed(cfg, s) && (step.Put? ==> step.k < |cfg|) && Plain(cfg) && InRange(priority)
    ensures Apply(cfg, s, step, source, priority, classify).1 == Ok
    ensures ReportList(Apply(cfg, s, step, source, priority, classify).0, typo) == ReportList(s, typo) + ReportedBy(step, typo, source, priority, classify)
  {
    ApplyPlain(cfg, s, step, source, priority, classify);
  }

  /** A step the set accepts hands the run on to the next step. */
  lemma RunFromNext(cfg: seq<Entry>, s: Snapshot, steps: seq<Step>, j: nat, source: Option<string>, priority: int, classify: string -> bool)
    requires WellFormed(cfg, s) && InSet(cfg, steps) && j < |steps|
    requires Apply(cfg, s, steps[j], source, priority, classify).1 == Ok
    ensures RunFrom(cfg, s, steps, j, source, priority, classify)
         == RunFrom(cfg, Apply(cfg, s, steps[j], source, priority, classify).0, steps, j + 1, source, priority, classify)
  {
  }

  /** Appending a step's reports and then the rest's is appending both at once. */
  lemma ReportsJoin(x: seq<Stray>, a: seq<Stray>, ra: seq<Stray>, mid: seq<Stray>, fin: seq<Stray>)
    requires mid == x + a && fin == mid + ra
    ensures fin == x + (a + ra)
  {
  }

  /** Without hooks and with a valid priority each report goes to its list, in order. */
  lemma {:induction false} RunPlainReports(cfg: seq<Entry>, s: Snapshot, steps: seq<Step>, j: nat, typo: bool,
                                           source: Option<string>, priority: int, classify: string -> bool)
    requires WellFormed(cfg, s) && InSet(cfg, steps) && Plain(cfg) && InRange(priority)
    ensures ReportList(RunFrom(cfg, s, steps, j, source, priority, classify).0, typo)
         == ReportList(s, typo) + Reported(steps, j, typo, source, priority, classify)
    decreases |steps| - j
  {
    if j < |steps| {
      var t := Apply(cfg, s, steps[j], source, priority, classify).0;
      ApplyReports(cfg, s, steps[j], typo, source, priority, classify);
      RunFromNext(cfg, s, steps, j, source, priority, classify);
      RunPlainReports(cfg, t, steps, j + 1, typo, source, priority, classify);
      ReportsJoin(ReportList(s, typo), ReportedBy(steps[j], typo, source, priority, classify),
                  Reported(steps, j + 1, typo, source, priority, classify),
                  ReportList(t, typo), ReportList(RunFrom(cfg, s, steps, j, source, priority, classify).0, typo));
    }
  }

  /** A step traces back to the tokens: a value is one of them, a report one that named nothing, stripped. */
  predicate Traced(cfg: seq<Entry>, step: Step, tokens: seq<string>)
  {
    (step.Put? && step.text.Some? ==> step.text.value in tokens)
    && (step.Unmatched? ==> exists t :: t in tokens && Recognize(cfg, t).Loose? && step.name == Stripped(t))
  }

  /** The steps of one token trace back to that token. */
  lemma LocalTraced(cfg: seq<Entry>, p: Pending, t: string)
    requires Pends(cfg, p)
    ensures forall j :: 0 <= j < |Local(cfg, p, t).0| ==> Traced(cfg, Local(cfg, p, t).0[j], [t])
  {
    FreshTraced(cfg, t);
    forall j | 0 <= j < |Local(cfg, p, t).0|
      ensures Traced(cfg, Local(cfg, p, t).0[j], [t])
    {
      LocalStepTraced(cfg, p, t, j);
    }
  }

  /** The steps of a token read fresh trace back to it: NULLs, or the token itself reported. */
  lemma FreshTraced(cfg: seq<Entry>, t: string)
    ensures forall j :: 0 <= j < |Fresh(cfg, t).0| ==> Traced(cfg, Fresh(cfg, t).0[j], [t])
  {
    var f := Fresh(cfg, t).0;
    forall j | 0 <= j < |f|
      ensures Traced(cfg, f[j], [t])
    {
      if Recognize(cfg, t).Loose? {
        assert f[j] == Unmatched(Stripped(t)) && t in [t];
      }
    }
  }

  /** One step of a token: the token as a pending value, a NULL, or a step of Fresh. */
  lemma LocalStepTraced(cfg: seq<Entry>, p: Pending, t: string, j: nat)
    requires Pends(cfg, p) && j < |Local(cfg, p, t).0|
    requires forall i :: 0 <= i < |Fresh(cfg, t).0| ==> Traced(cfg, Fresh(cfg, t).0[i], [t])
    ensures Traced(cfg, Local(cfg, p, t).0[j], [t])
  {
    var f := Fresh(cfg, t).0;
    match p
    case Nothing =>
    case Awaits(k) =>
      if Takes(cfg[k], t) {
        assert t in [t];
      } else {
        NullThenTraced(cfg, k, f, t, j);
      }
    case Collects(k, got) =>
      if !Breaks(cfg, cfg[k], t) {
        assert t in [t];
      } else if got {
        assert Local(cfg, p, t).0 == [] + f == f;
      } else {
        NullThenTraced(cfg, k, f, t, j);
      }
  }

  /** A NULL followed by traced steps is traced. */
  lemma NullThenTraced(cfg: seq<Entry>, k: nat, f: seq<Step>, t: string, j: nat)
    requires j < 1 + |f| && forall i :: 0 <= i < |f| ==> Traced(cfg, f[i], [t])
    ensures Traced(cfg, ([Put(k, None)] + f)[j], [t])
  {
    if j > 0 {
      assert ([Put(k, None)] + f)[j] == f[j - 1];
    }
  }

  /** Every value a parse stores, and every name it reports, comes from the tokens at or after position i. */
  lemma {:induction false} StepsFromArgv(cfg: seq<Entry>, argv: seq<string>, i: nat, p: Pending)
    requires Pends(cfg, p) && i <= |argv|
    ensures forall j :: 0 <= j < |Steps(cfg, argv, i, p)| ==> Traced(cfg, Steps(cfg, argv, i, p)[j], argv[i..])
    decreases |argv| - i
  {
    if i < |argv| {
      var (now, next) := Local(cfg, p, argv[i]);
      var rest := Steps(cfg, argv, i + 1, next);
      StepsFromArgv(cfg, argv, i + 1, next);
      LocalTraced(cfg, p, argv[i]);
      assert Steps(cfg, argv, i, p) == now + rest;
      forall j | 0 <= j < |now + rest|
        ensures Traced(cfg, (now + rest)[j], argv[i..])
      {
        if j < |now| {
          Widen(cfg, now[j], [argv[i]], argv[i..]);
        } else {
          Widen(cfg, rest[j - |now|], argv[i + 1..], argv[i..]);
        }
      }
    }
  }

  lemma Widen(cfg: seq<Entry>, step: Step, a: seq<string>, b: seq<string>)
    requires Traced(cfg, step, a) && forall t :: t in a ==> t in b
    ensures Traced(cfg, step, b)
  {
  }

  /** The program name plays no part: only the tokens after it are read. */
  lemma {:induction false} StepsReadOnlyTheRest(cfg: seq<Entry>, a: seq<string>, b: seq<string>, i: nat, p: Pending)
    requires Pends(cfg, p) && |a| == |b| && i <= |a| && a[i..] == b[i..]
    ensures Steps(cfg, a, i, p) == Steps(cfg, b, i, p)
    decreases |a| - i
  {
    if i < |a| {
      assert a[i] == a[i..][0] == b[i..][0] == b[i];
      assert a[i + 1..] == a[i..][1..];
      assert b[i + 1..] == b[i..][1..];
      var (now, next) := Local(cfg, p, a[i]);
      StepsReadOnlyTheRest(cfg, a, b, i + 1, next);
    }
  }

  lemma ProgramNameIgnored(cfg: seq<Entry>, argv: seq<string>, name: string)
    requires |argv| > 0
    ensures Parse(cfg, [name] + argv[1..]) == Parse(cfg, argv)
  {
    var b := [name] + argv[1..];
    assert b[1..] == argv[1..];
    StepsReadOnlyTheRest(cfg, b, argv, 1, Nothing);
  }

  // ---------------------------------------------------------------------
  // The grammar, rule by rule
  // ---------------------------------------------------------------------

  /** A bunch stores NULL for each of its letters and never takes the next token. */
  lemma BunchTakesNothing(cfg: seq<Entry>, argv: seq<string>, i: nat)
    requires i < |argv| && Recognize(cfg, argv[i]).Bunch?
    ensures var ks := Recognize(cfg, argv[i]).ks;
      Steps(cfg, argv, i, Nothing) == Nulls(ks) + Steps(cfg, argv, i + 1, Nothing)
  {
  }

  /** A HAS_VALUE flag takes the next token, whatever it looks like, unless told to break on a potential parameter. */
  lemma HasValueTakesNext(cfg: seq<Entry>, argv: seq<string>, i: nat)
    requires i + 1 < |argv| && Recognize(cfg, argv[i]).Flag?
    requires var o := cfg[Recognize(cfg, argv[i]).k].option;
      HasValue in o && HasNoValue !in o && HasValueSequence !in o && BreakWithPotentialParameter !in o
    ensures Steps(cfg, argv, i, Nothing)
         == [Put(Recognize(cfg, argv[i]).k, Some(argv[i + 1]))] + Steps(cfg, argv, i + 2, Nothing)
  {
    var k := Recognize(cfg, argv[i]).k;
    assert Local(cfg, Nothing, argv[i]) == ([], Awaits(k));
    assert Local(cfg, Awaits(k), argv[i + 1]) == ([Put(k, Some(argv[i + 1]))], Nothing);
  }

  /**
   * A flag with the default grammar takes the next token unless that token
   * could be a parameter; then it stores NULL and the token is read afresh.
   */
  lemma DefaultTakesValue(cfg: seq<Entry>, argv: seq<string>, i: nat)
    requires i + 1 < |argv| && Recognize(cfg, argv[i]).Flag?
    requires var o := cfg[Recognize(cfg, argv[i]).k].option;
      HasValue !in o && HasNoValue !in o && HasValueSequence !in o
    ensures var k := Recognize(cfg, argv[i]).k;
      Steps(cfg, argv, i, Nothing)
      == if Potential(argv[i + 1]) then
           [Put(k, None)] + Fresh(cfg, argv[i + 1]).0 + Steps(cfg, argv, i + 2, Fresh(cfg, argv[i + 1]).1)
         else [Put(k, Some(argv[i + 1]))] + Steps(cfg, argv, i + 2, Nothing)
  {
    var k := Recognize(cfg, argv[i]).k;
    FlagAwaits(cfg, argv, i);
    StepAt(cfg, argv, i + 1, Awaits(k));
    if Potential(argv[i + 1]) {
      assert Local(cfg, Awaits(k), argv[i + 1]) == ([Put(k, None)] + Fresh(cfg, argv[i + 1]).0, Fresh(cfg, argv[i + 1]).1);
    } else {
      assert Local(cfg, Awaits(k), argv[i + 1]) == ([Put(k, Some(argv[i + 1]))], Nothing);
    }
  }

  /** A flag that neither stores NULL at once nor collects a sequence waits for one value. */
  lemma FlagAwaits(cfg: seq<Entry>, argv: seq<string>, i: nat)
    requires i < |argv| && Recognize(cfg, argv[i]).Flag?
    requires var o := cfg[Recognize(cfg, argv[i]).k].option; HasNoValue !in o && HasValueSequence !in o
    ensures Steps(cfg, argv, i, Nothing) == Steps(cfg, argv, i + 1, Awaits(Recognize(cfg, argv[i]).k))
  {
    var k := Recognize(cfg, argv[i]).k;
    StepAt(cfg, argv, i, Nothing);
    assert Local(cfg, Nothing, argv[i]) == ([], Awaits(k));
  }

  /** A value for parameter k from each token, in order. */
  function Puts(k: nat, tokens: seq<string>): (r: seq<Step>)
    decreases |tokens|
  {
    if |tokens| == 0 then [] else [Put(k, Some(tokens[0]))] + Puts(k, tokens[1..])
  }

  /** A sequence that does not break at the token takes it as its next value. */
  lemma CollectOne(cfg: seq<Entry>, argv: seq<string>, k: nat, got: bool, i: nat)
    requires k < |cfg| && i < |argv| && !Breaks(cfg, cfg[k], argv[i])
    ensures Steps(cfg, argv, i, Collects(k, got)) == [Put(k, Some(argv[i]))] + Steps(cfg, argv, i + 1, Collects(k, true))
  {
    StepAt(cfg, argv, i, Collects(k, got));
  }

  /**
   * A flag with a sequence of values takes every following token up to the
   * first one it breaks at; those tokens become its values, in order.
   */
  lemma SequenceTakesUntilBreak(cfg: seq<Entry>, argv: seq<string>, k: nat, got: bool, i: nat, n: nat)
    requires k < |cfg| && i + n <= |argv|
    requires forall m :: i <= m < i + n ==> !Breaks(cfg, cfg[k], argv[m])
    ensures Steps(cfg, argv, i, Collects(k, got))
         == Puts(k, argv[i..i + n]) + Steps(cfg, argv, i + n, Collects(k, got || n > 0))
  {
    var taken := argv[i..i + n];
    var from := (m: nat) => Steps(cfg, argv, m, Collects(k, got || m > i));
    forall m | i <= m < i + |taken|
      ensures from(m) == [Put(k, Some(taken[m - i]))] + from(m + 1)
    {
      CollectFrom(cfg, argv, k, got, i, m);
      assert taken[m - i] == argv[m];
    }
    PutsChain(from, k, taken, i);
    assert from(i) == Steps(cfg, argv, i, Collects(k, got));
    assert from(i + |taken|) == Steps(cfg, argv, i + n, Collects(k, got || n > 0));
  }

  /** CollectOne at position m of a sequence that started collecting at position i. */
  lemma CollectFrom(cfg: seq<Entry>, argv: seq<string>, k: nat, got: bool, i: nat, m: nat)
    requires k < |cfg| && i <= m < |argv| && !Breaks(cfg, cfg[k], argv[m])
    ensures Steps(cfg, argv, m, Collects(k, got || m > i))
         == [Put(k, Some(argv[m]))] + Steps(cfg, argv, m + 1, Collects(k, got || m + 1 > i))
  {
    CollectOne(cfg, argv, k, got || m > i, m);
  }

  /**
   * Positions that each put their own token and hand over to the next one put
   * all the tokens, in order.
   */
  lemma {:induction false} PutsChain(after: nat -> seq<Step>, k: nat, ts: seq<string>, i: nat)
    requires forall m :: i <= m < i + |ts| ==> after(m) == [Put(k, Some(ts[m - i]))] + after(m + 1)
    ensures after(i) == Puts(k, ts) + after(i + |ts|)
    decreases |ts|
  {
    if |ts| > 0 {
      forall m | i + 1 <= m < i + 1 + |ts[1..]|
        ensures after(m) == [Put(k, Some(ts[1..][m - (i + 1)]))] + after(m + 1)
      {
        assert ts[1..][m - (i + 1)] == ts[m - i];
      }
      PutsChain(after, k, ts[1..], i + 1);
      PutsCons(k, ts, after(i), after(i + 1), after(i + |ts|));
    }
  }

  /** A step list that puts the first token and then the rest puts all the tokens. */
  lemma PutsCons(k: nat, ts: seq<string>, x: seq<Step>, y: seq<Step>, z: seq<Step>)
    requires |ts| > 0 && x == [Put(k, Some(ts[0]))] + y && y == Puts(k, ts[1..]) + z
    ensures x == Puts(k, ts) + z
  {
    assert [Put(k, Some(ts[0]))] + (Puts(k, ts[1..]) + z) == ([Put(k, Some(ts[0]))] + Puts(k, ts[1..])) + z;
  }
}

/**
 * The command lines of the command-line tests, parsed into the set the tests
 * build, with the values, typos and unknowns the tests expect.
 */
module CommandLineExamples {
  import opened Errors
  import opened ParamValue
  import opened Parameter
  import opened ParamSet
  import opened CommandLine
  import Typo

  /** A parameter without hooks or alias, with the given parse option. */
  function Flagged(name: string, o: ParseOption): Entry
  {
    Entry(name, None, NoControls, o)
  }

  /** A value as the tests' command lines store it: no source, priority 0, checks passed. */
  function Text(t: string): Value
  {
    Value(Some(t), None, 0, 0, 0)
  }

  const Null := Value(None, None, 0, 0, 0)

  // ---------------------------------------------------------------------
  // "-abc -x -e e_value" with the default grammar
  // ---------------------------------------------------------------------

  const FlagsCfg: seq<Entry> :=
    [Flagged("a", {}), Flagged("b", {}), Flagged("c", {}), Flagged("d", {}), Flagged("x", {}), Flagged("e", {})]

  const FlagsArgv: seq<string> := ["<path>", "-abc", "-x", "-e", "e_value"]

  lemma FlagsLookups()
    ensures Lookup(FlagsCfg, "a") == Some(0) && Lookup(FlagsCfg, "b") == Some(1) && Lookup(FlagsCfg, "c") == Some(2)
    ensures Lookup(FlagsCfg, "x") == Some(4) && Lookup(FlagsCfg, "e") == Some(5)
  {
  }

  lemma FlagsTokens()
    ensures Recognize(FlagsCfg, "-abc") == Bunch([0, 1, 2])
    ensures Recognize(FlagsCfg, "-x") == Flag(4)
    ensures Recognize(FlagsCfg, "-e") == Flag(5)
  {
    FlagsBunch();
    FlagsSingles();
  }

  /** "-abc" names three one-letter parameters. */
  lemma FlagsBunch()
    ensures Recognize(FlagsCfg, "-abc") == Bunch([0, 1, 2])
  {
    FlagsLookups();
    assert "-abc"[1..] == "abc" && "abc"[1..] == "bc" && "bc"[1..] == "c" && "c"[1..] == "";
    assert ["abc"[0]] == "a" && ["bc"[0]] == "b" && ["c"[0]] == "c";
  }

  /** "-x" and "-e" each name one parameter. */
  lemma FlagsSingles()
    ensures Recognize(FlagsCfg, "-x") == Flag(4)
    ensures Recognize(FlagsCfg, "-e") == Flag(5)
  {
    FlagsLookups();
    assert "-x"[1..] == "x" && "-e"[1..] == "e";
  }

  lemma FlagsTail()
    ensures Steps(FlagsCfg, FlagsArgv, 3, Awaits(4)) == [Put(4, None), Put(5, Some("e_value"))]
  {
    FlagsTokens();
    assert Steps(FlagsCfg, FlagsArgv, 4, Awaits(5)) == [Put(5, Some("e_value"))];
  }

  lemma FlagsHead()
    ensures Local(FlagsCfg, Nothing, "-abc") == ([Put(0, None), Put(1, None), Put(2, None)], Nothing)
    ensures Local(FlagsCfg, Nothing, "-x") == ([], Awaits(4))
  {
    FlagsTokens();
    assert [0, 1, 2][1..] == [1, 2] && [1, 2][1..] == [2] && [2][1..] == [];
    assert Nulls([0, 1, 2]) == [Put(0, None), Put(1, None), Put(2, None)];
  }

  /** "-abc" is a bunch; "-x" stores NULL because "-e" could be a parameter; "-e" takes "e_value". */
  lemma FlagsParse()
    ensures Parse(FlagsCfg, FlagsArgv)
         == [Put(0, None), Put(1, None), Put(2, None), Put(4, None), Put(5, Some("e_value"))]
  {
    FlagsHead();
    FlagsTail();
    assert FlagsArgv[1] == "-abc" && FlagsArgv[2] == "-x";
  }

  const FlagsSteps := [Put(0, None), Put(1, None), Put(2, None), Put(4, None), Put(5, Some("e_value"))]

  lemma FlagsReady()
    ensures Plain(FlagsCfg) && InSet(FlagsCfg, FlagsSteps) && Typo.NamesOk(NamesOf(FlagsCfg))
  {
    assert NamesOf(FlagsCfg) == ["a", "b", "c", "d", "x", "e"];
  }

  lemma FlagsStored()
    ensures Stored(FlagsSteps, 0, 0, None, 0) == [Null]
    ensures Stored(FlagsSteps, 1, 0, None, 0) == [Null]
    ensures Stored(FlagsSteps, 2, 0, None, 0) == [Null]
    ensures Stored(FlagsSteps, 3, 0, None, 0) == []
    ensures Stored(FlagsSteps, 4, 0, None, 0) == [Null]
    ensures Stored(FlagsSteps, 5, 0, None, 0) == [Text("e_value")]
  {
  }

  /** No step of the parse names an unmatched token, so nothing is reported, whatever the classifier. */
  lemma FlagsReported(classify: string -> bool)
    ensures Reported(FlagsSteps, 0, true, None, 0, classify) == []
    ensures Reported(FlagsSteps, 0, false, None, 0, classify) == []
  {
  }

  /** The run of the parsed steps, for any classifier (none is consulted). */
  lemma FlagsRun(s: Snapshot, classify: string -> bool)
    requires |s.lists| == 6 && s.typos == [] && s.unknowns == []
    requires forall k :: 0 <= k < 6 ==> s.lists[k] == []
    requires WellFormed(FlagsCfg, s) && Plain(FlagsCfg) && InSet(FlagsCfg, FlagsSteps)
    ensures var r := Run(FlagsCfg, s, FlagsSteps, None, 0, classify);
      r.1 == Ok && r.0 == Snapshot([[Null], [Null], [Null], [], [Null], [Text("e_value")]], [], [])
  {
    RunPlain(FlagsCfg, s, FlagsSteps, 0, None, 0, classify);
    RunPlainReports(FlagsCfg, s, FlagsSteps, 0, true, None, 0, classify);
    RunPlainReports(FlagsCfg, s, FlagsSteps, 0, false, None, 0, classify);
    FlagsReported(classify);
    FlagsLists(Run(FlagsCfg, s, FlagsSteps, None, 0, classify).0.lists, s.lists);
  }

  /** The six lists after the run: each empty list followed by what the steps store in it. */
  lemma FlagsLists(ls: seq<seq<Value>>, old_ls: seq<seq<Value>>)
    requires |ls| == 6 && |old_ls| == 6 && forall k :: 0 <= k < 6 ==> old_ls[k] == []
    requires forall k :: 0 <= k < 6 ==> ls[k] == old_ls[k] + Stored(FlagsSteps, k, 0, None, 0)
    ensures ls == [[Null], [Null], [Null], [], [Null], [Text("e_value")]]
  {
    FlagsStored();
    assert ls[0] == old_ls[0] + Stored(FlagsSteps, 0, 0, None, 0) == [Null];
    assert ls[1] == old_ls[1] + Stored(FlagsSteps, 1, 0, None, 0) == [Null];
    assert ls[2] == old_ls[2] + Stored(FlagsSteps, 2, 0, None, 0) == [Null];
    assert ls[3] == old_ls[3] + Stored(FlagsSteps, 3, 0, None, 0) == [];
    assert ls[4] == old_ls[4] + Stored(FlagsSteps, 4, 0, None, 0) == [Null];
    assert ls[5] == old_ls[5] + Stored(FlagsSteps, 5, 0, None, 0) == [Text("e_value")];
  }

  /**
   * Starting from six empty parameters: a, b, c and x hold NULL, e holds
   * "e_value", d stays empty, and there are no typos or unknowns.
   */
  lemma FlagsOutcome(s: Snapshot)
    requires |s.lists| == 6 && s.typos == [] && s.unknowns == []
    requires forall k :: 0 <= k < 6 ==> s.lists[k] == []
    ensures WellFormed(FlagsCfg, s)
    ensures var r := Run(FlagsCfg, s, FlagsSteps, None, 0, Classifier(FlagsCfg));
      r.1 == Ok && r.0 == Snapshot([[Null], [Null], [Null], [], [Null], [Text("e_value")]], [], [])
  {
    FlagsReady();
    FlagsRun(s, Classifier(FlagsCfg));
  }
}

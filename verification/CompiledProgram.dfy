/** The whole way: the generated functions, called by the generated driver with local names in
    stack cells, do what the program says with every variable kept for the whole run and every
    operand evaluated once. */
module CompiledProgram {
  import opened Options
  import opened Syntax
  import opened Meaning
  import opened Effects
  import opened Readings
  import opened Machine
  import opened WellFormedStmt
  import opened PhaseSimulation
  import opened PhaseCorrectness
  import opened Residency
  import opened ResidencySound
  import opened Storage
  import LS = LoweringSpec

  /** What the compiler is right about: ternaries joined as emitted, comparisons that may be
      evaluated twice, and programs the residency analysis is right about. */
  ghost predicate Supported(p: Program, layout: Layout) {
    && OrderlyProgram(p)
    && PhaseFits(layout.begin, Actions(p.begin)) && PhaseFits(layout.record, Items(p.items))
      && PhaseFits(layout.end, Actions(p.end))
  }

  ghost predicate PhaseFits(locals: set<string>, phase: Phase) {
    PhaseJoins(phase) && PhaseSafe(phase) && LS.LowerPhase(locals, phase).Some?
  }

  // ----- What the semantic check gives -----

  predicate ActionAccepted(action: Action, inRecordAction: bool) {
    forall s :: s in action ==> Accepted(s, inRecordAction, 0)
  }

  predicate PhaseAccepted(phase: Phase) {
    match phase
    case Actions(actions) => forall a :: a in actions ==> ActionAccepted(a, false)
    case Items(items) => forall i :: i in items ==> (i.action.Some? ==> ActionAccepted(i.action.value, true))
  }

  lemma {:induction false} EmittedAccepted(ss: seq<Stmt>, inRecordAction: bool)
    requires ActionAccepted(ss, inRecordAction)
    ensures ActionAccepted(LS.Emitted(ss), inRecordAction)
  {
    if ss != [] { EmittedAccepted(ss[1..], inRecordAction); }
  }

  lemma AcceptedAction(locals: set<string>, action: Option<Action>, em: LS.Emitter, inRecordAction: bool)
    requires action.Some? ==> ActionAccepted(action.value, inRecordAction)
    ensures LS.ActionOrDefault(locals, action, LS.AT_START, em).Some?
  {
    if action.Some? {
      EmittedAccepted(action.value, inRecordAction);
      AllAcceptedIsLowered(locals, LS.Emitted(action.value), LS.AT_START, em.Labels(1), inRecordAction, 0);
    }
  }

  lemma AcceptedItem(locals: set<string>, item: RecordItem, em: LS.Emitter)
    requires item.action.Some? ==> ActionAccepted(item.action.value, true)
    ensures LS.LowerItem(locals, item, LS.AT_START, em).Some?
  {
    hide LS.ActionOrDefault, LS.Condition, LS.RangeEnd, LS.RangeFlag, LS.VariableAddress, LS.Close, LS.Fork, LS.Extends;
    hide ActionAccepted;
    forall em1: LS.Emitter
      ensures LS.ActionOrDefault(locals, item.action, LS.AT_START, em1).Some?
    {
      AcceptedAction(locals, item.action, em1, true);
    }
  }

  lemma {:induction false} AcceptedItems(locals: set<string>, items: seq<RecordItem>, em: LS.Emitter)
    requires PhaseAccepted(Items(items))
    ensures LS.LowerItems(locals, items, LS.AT_START, em).Some?
    decreases items
  {
    if items != [] {
      hide LS.LowerItem, LS.Extends, ActionAccepted;
      AcceptedItem(locals, items[0], em);
      AcceptedItems(locals, items[1..], LS.LowerItem(locals, items[0], LS.AT_START, em).value);
    }
  }

  lemma {:induction false} AcceptedActions(locals: set<string>, actions: seq<Action>, em: LS.Emitter)
    requires PhaseAccepted(Actions(actions))
    ensures LS.LowerActions(locals, actions, LS.AT_START, em).Some?
    decreases actions
  {
    if actions != [] {
      hide LS.LowerAction, LS.Extends, ActionAccepted;
      AcceptedOne(locals, actions[0], em);
      AcceptedActions(locals, actions[1..], LS.LowerAction(locals, actions[0], LS.AT_START, em).value);
    }
  }

  lemma AcceptedOne(locals: set<string>, action: Action, em: LS.Emitter)
    requires ActionAccepted(action, false)
    ensures LS.LowerAction(locals, action, LS.AT_START, em).Some?
  {
    AcceptedAction(locals, Some(action), em, false);
  }

  /** A phase the semantic check accepts is lowered, wherever its variables are kept. */
  lemma AcceptedPhaseIsLowered(locals: set<string>, phase: Phase)
    requires PhaseAccepted(phase)
    ensures LS.LowerPhase(locals, phase).Some?
  {
    match phase
    case Actions(actions) => AcceptedActions(locals, actions, LS.START);
    case Items(items) => AcceptedItems(locals, items, LS.START);
  }

  /** So a program the semantic check accepts is supported if its ternaries are joined as emitted, its
      comparisons may be evaluated twice, and the residency analysis is right about it. */
  lemma AcceptedIsSupported(p: Program, layout: Layout)
    requires OrderlyProgram(p)
    requires forall phase :: phase in [Actions(p.begin), Items(p.items), Actions(p.end)] ==>
      PhaseAccepted(phase) && PhaseJoins(phase) && PhaseSafe(phase)
    ensures Supported(p, layout)
  {
    hide LS.LowerPhase, PhaseAccepted, PhaseJoins, PhaseSafe, OrderlyProgram;
    var phases := [Actions(p.begin), Items(p.items), Actions(p.end)];
    assert phases[0] in phases && phases[1] in phases && phases[2] in phases;
    AcceptedPhaseIsLowered(layout.begin, Actions(p.begin));
    AcceptedPhaseIsLowered(layout.record, Items(p.items));
    AcceptedPhaseIsLowered(layout.end, Actions(p.end));
  }

  // ----- Running the generated functions -----

  function Entering(s: Kept): World {
    World(s.persistent, map[], s.output, s.exit, {}, {})
  }

  function Leaving(s: Kept, c: Config): Kept {
    Kept(c.memory.persistent, c.memory.output, c.memory.exit, s.taken)
  }

  /** One call of the generated function, whatever its stack cells held, takes `s` to `t`. */
  ghost predicate CallRuns(ops: FloatOps, builtins: BuiltinValues, locals: set<string>, phase: Phase, s: Kept, t: Kept)
    requires LS.LowerPhase(locals, phase).Some?
  {
    exists garbage, n: nat, c ::
      CallReturns(Context(ops, builtins, locals, AsEmitted), phase, Entering(s), garbage, n, c) && t == Leaving(s, c)
  }

  /** The driver's record loop takes `s` to `t` in `n` calls. */
  ghost predicate LoopRuns(out: Outside, locals: set<string>, items: seq<RecordItem>, s: Kept, t: Kept, n: nat)
    requires LS.LowerPhase(locals, Items(items)).Some?
    decreases n
  {
    if s.exit.Some? || Next(out, s).None? then n == 0 && t == s
    else n > 0 && exists s1 ::
      CallRuns(out.ops, Next(out, s).value, locals, Items(items), Taking(s), s1)
        && LoopRuns(out, locals, items, s1, t, n - 1)
  }

  ghost predicate ReadsRun(out: Outside, locals: set<string>, p: Program, s: Kept, t: Kept)
    requires LS.LowerPhase(locals, Items(p.items)).Some?
  {
    if p.items == [] && p.end == [] then t == s else exists n: nat :: LoopRuns(out, locals, p.items, s, t, n)
  }

  /** The driver takes `s` to `t`. */
  ghost predicate ProgramRuns(out: Outside, layout: Layout, p: Program, s: Kept, t: Kept)
    requires Supported(p, layout)
  {
    exists s1, s2 ::
      && CallRuns(out.ops, out.atBegin, layout.begin, Actions(p.begin), s, s1)
      && ReadsRun(out, layout.record, p, s1, s2)
      && CallRuns(out.ops, AtEnd(out, s2), layout.end, Actions(p.end), s2, t)
  }

  // ----- What the runs mean -----

  /** A call takes `s` to `t` exactly when its phase does, read as written. */
  lemma CallMeans(ops: FloatOps, builtins: BuiltinValues, locals: set<string>, phase: Phase, s: Kept, t: Kept)
    requires ops.Lawful() && PhaseFits(locals, phase)
    ensures CallRuns(ops, builtins, locals, phase, s, t) <==> exists fuel: nat ::
      Call(ops, AsWritten, builtins, locals, phase, s, fuel) == Some(t)
  {
    hide LS.LowerPhase, CallReturns, ExecPhase, PhaseJoins, PhaseSafe;
    var cx, once, w := Context(ops, builtins, locals, AsEmitted), Context(ops, builtins, locals, AsWritten),
        Entering(s);
    forall fuel: nat
      ensures ExecPhase(cx, phase, w, fuel) == ExecPhase(once, phase, w, fuel)
    {
      PhaseOnce(once, cx, phase, w, fuel);
    }
    if CallRuns(ops, builtins, locals, phase, s, t) {
      var garbage, n: nat, c :| CallReturns(cx, phase, w, garbage, n, c) && t == Leaving(s, c);
      PhaseMeans(cx, phase, w, garbage);
      var fuel: nat :| ExecPhase(cx, phase, w, fuel).Done?;
      assert Call(ops, AsWritten, builtins, locals, phase, s, fuel) == Some(t);
    }
    if fuel: nat :| Call(ops, AsWritten, builtins, locals, phase, s, fuel) == Some(t) {
      var garbage := (t: Temp) => ZERO;
      PhaseMeans(cx, phase, w, garbage);
      var n: nat, c :| CallReturns(cx, phase, w, garbage, n, c);
      assert t == Leaving(s, c);
    }
  }

  lemma MoreFuelCall(ops: FloatOps, builtins: BuiltinValues, locals: set<string>, phase: Phase,
                     s: Kept, less: nat, more: nat)
    requires less <= more && Call(ops, AsWritten, builtins, locals, phase, s, less).Some?
    ensures Call(ops, AsWritten, builtins, locals, phase, s, more)
      == Call(ops, AsWritten, builtins, locals, phase, s, less)
  {
    MoreFuelPhase(Context(ops, builtins, locals, AsWritten), phase, Entering(s), less, more);
  }

  lemma {:induction false} MoreFuelLoop(out: Outside, locals: set<string>, items: seq<RecordItem>,
                                        s: Kept, less: nat, more: nat)
    requires less <= more && RecordLoop(out, AsWritten, locals, items, s, less).Some?
    ensures RecordLoop(out, AsWritten, locals, items, s, more) == RecordLoop(out, AsWritten, locals, items, s, less)
    decreases less
  {
    hide Call;
    if s.exit.None? && Next(out, s).Some? {
      var builtins := Next(out, s).value;
      MoreFuelCall(out.ops, builtins, locals, Items(items), Taking(s), less, more);
      MoreFuelLoop(out, locals, items, Call(out.ops, AsWritten, builtins, locals, Items(items), Taking(s), less).value,
                   less - 1, more - 1);
    }
  }

  lemma {:induction false} LoopIsMeant(out: Outside, locals: set<string>, items: seq<RecordItem>, s: Kept,
                                       t: Kept, n: nat) returns (fuel: nat)
    requires out.ops.Lawful() && PhaseFits(locals, Items(items)) && LoopRuns(out, locals, items, s, t, n)
    ensures RecordLoop(out, AsWritten, locals, items, s, fuel) == Some(t)
    decreases n
  {
    hide Call, CallRuns, LS.LowerPhase, PhaseJoins, PhaseSafe;
    fuel := 0;
    if n > 0 {
      var builtins := Next(out, s).value;
      var s1 :| CallRuns(out.ops, builtins, locals, Items(items), Taking(s), s1)
          && LoopRuns(out, locals, items, s1, t, n - 1);
      CallMeans(out.ops, builtins, locals, Items(items), Taking(s), s1);
      var f: nat :| Call(out.ops, AsWritten, builtins, locals, Items(items), Taking(s), f) == Some(s1);
      var g := LoopIsMeant(out, locals, items, s1, t, n - 1);
      fuel := if f < g + 1 then g + 1 else f;
      MoreFuelCall(out.ops, builtins, locals, Items(items), Taking(s), f, fuel);
      MoreFuelLoop(out, locals, items, s1, g, fuel - 1);
    }
  }

  lemma {:induction false} LoopIsRun(out: Outside, locals: set<string>, items: seq<RecordItem>, s: Kept, fuel: nat)
    returns (n: nat)
    requires out.ops.Lawful() && PhaseFits(locals, Items(items))
      && RecordLoop(out, AsWritten, locals, items, s, fuel).Some?
    ensures LoopRuns(out, locals, items, s, RecordLoop(out, AsWritten, locals, items, s, fuel).value, n)
    decreases fuel
  {
    hide Call, CallRuns, LS.LowerPhase, PhaseJoins, PhaseSafe;
    n := 0;
    if s.exit.None? && Next(out, s).Some? {
      var builtins := Next(out, s).value;
      var s1 := Call(out.ops, AsWritten, builtins, locals, Items(items), Taking(s), fuel).value;
      CallMeans(out.ops, builtins, locals, Items(items), Taking(s), s1);
      n := LoopIsRun(out, locals, items, s1, fuel - 1);
      n := n + 1;
    }
  }

  /** A run of the generated program takes `s` to `t` exactly when the program does. */
  lemma ProgramMeans(out: Outside, layout: Layout, p: Program, s: Kept, t: Kept)
    requires out.ops.Lawful() && Supported(p, layout)
    ensures ProgramRuns(out, layout, p, s, t) <==> exists fuel: nat ::
      RunProgram(out, AsWritten, layout, p, s, fuel) == Some(t)
  {
    hide Call, CallRuns, LS.LowerPhase, PhaseJoins, PhaseSafe, OrderlyProgram, LoopRuns, RecordLoop;
    if ProgramRuns(out, layout, p, s, t) {
      var s1, s2 :| CallRuns(out.ops, out.atBegin, layout.begin, Actions(p.begin), s, s1)
          && ReadsRun(out, layout.record, p, s1, s2)
        && CallRuns(out.ops, AtEnd(out, s2), layout.end, Actions(p.end), s2, t);
      var fuel := ProgramIsMeant(out, layout, p, s, s1, s2, t);
    }
    if fuel: nat :| RunProgram(out, AsWritten, layout, p, s, fuel) == Some(t) {
      var s1 := Call(out.ops, AsWritten, out.atBegin, layout.begin, Actions(p.begin), s, fuel).value;
      var s2 := if p.items == [] && p.end == [] then s1
          else RecordLoop(out, AsWritten, layout.record, p.items, s1, fuel).value;
      CallMeans(out.ops, out.atBegin, layout.begin, Actions(p.begin), s, s1);
      CallMeans(out.ops, AtEnd(out, s2), layout.end, Actions(p.end), s2, t);
      if !(p.items == [] && p.end == []) { var n := LoopIsRun(out, layout.record, p.items, s1, fuel); }
    }
  }

  lemma ProgramIsMeant(out: Outside, layout: Layout, p: Program, s: Kept, s1: Kept, s2: Kept, t: Kept)
    returns (fuel: nat)
    requires out.ops.Lawful() && Supported(p, layout)
    requires CallRuns(out.ops, out.atBegin, layout.begin, Actions(p.begin), s, s1)
      && ReadsRun(out, layout.record, p, s1, s2)
    requires CallRuns(out.ops, AtEnd(out, s2), layout.end, Actions(p.end), s2, t)
    ensures RunProgram(out, AsWritten, layout, p, s, fuel) == Some(t)
  {
    hide Call, CallRuns, LS.LowerPhase, PhaseJoins, PhaseSafe, OrderlyProgram, LoopRuns, RecordLoop;
    var none := p.items == [] && p.end == [];
    CallMeans(out.ops, out.atBegin, layout.begin, Actions(p.begin), s, s1);
    CallMeans(out.ops, AtEnd(out, s2), layout.end, Actions(p.end), s2, t);
    var f: nat :| Call(out.ops, AsWritten, out.atBegin, layout.begin, Actions(p.begin), s, f) == Some(s1);
    var h: nat :| Call(out.ops, AsWritten, AtEnd(out, s2), layout.end, Actions(p.end), s2, h) == Some(t);
    var g: nat := 0;
    if !none {
      var n: nat :| LoopRuns(out, layout.record, p.items, s1, s2, n);
      g := LoopIsMeant(out, layout.record, p.items, s1, s2, n);
    }
    fuel := f + g + h;
    MoreFuelCall(out.ops, out.atBegin, layout.begin, Actions(p.begin), s, f, fuel);
    MoreFuelCall(out.ops, AtEnd(out, s2), layout.end, Actions(p.end), s2, h, fuel);
    if !none { MoreFuelLoop(out, layout.record, p.items, s1, g, fuel); }
  }

  /** The compiled program, with the variables where the classification puts them, ends exactly
      when the program as written does with every variable kept throughout, and then with the same
      output, exit status and state-backed variables. */
  lemma CompiledIsSource(out: Outside, p: Program, tracked: set<string>, r: Residency, s: Kept)
    requires out.ops.Lawful() && Supported(p, LayoutOf(r)) && Classifies(p, tracked, r) && NoRangeName(tracked)
    ensures (exists t :: ProgramRuns(out, LayoutOf(r), p, s, t)) <==>
      (exists fuel: nat :: RunProgram(out, AsWritten, NOTHING_LOCAL, p, s, fuel).Some?)
    ensures forall t, fuel: nat ::
      (ProgramRuns(out, LayoutOf(r), p, s, t) && RunProgram(out, AsWritten, NOTHING_LOCAL, p, s, fuel).Some?) ==>
        SameSeen(r.All(), Some(t), RunProgram(out, AsWritten, NOTHING_LOCAL, p, s, fuel))
  {
    hide RunProgram, ProgramRuns, Classifies, PhaseFits, OrderlyProgram, SameSeen;
    var layout := LayoutOf(r);
    forall t | ProgramRuns(out, layout, p, s, t)
      ensures exists fuel: nat :: RunProgram(out, AsWritten, NOTHING_LOCAL, p, s, fuel).Some?
    {
      ProgramMeans(out, layout, p, s, t);
      var fuel: nat :| RunProgram(out, AsWritten, layout, p, s, fuel) == Some(t);
      StorageUnobservable(out, AsWritten, p, tracked, r, s, fuel);
      SomeSeen(r.All(), Some(t), RunProgram(out, AsWritten, NOTHING_LOCAL, p, s, fuel));
    }
    forall fuel: nat | RunProgram(out, AsWritten, NOTHING_LOCAL, p, s, fuel).Some?
      ensures exists t :: ProgramRuns(out, layout, p, s, t)
    {
      StorageUnobservable(out, AsWritten, p, tracked, r, s, fuel);
      var kept := RunProgram(out, AsWritten, layout, p, s, fuel);
      SomeSeen(r.All(), kept, RunProgram(out, AsWritten, NOTHING_LOCAL, p, s, fuel));
      ProgramMeans(out, layout, p, s, kept.value);
    }
    forall t, fuel: nat | ProgramRuns(out, layout, p, s, t)
      && RunProgram(out, AsWritten, NOTHING_LOCAL, p, s, fuel).Some?
      ensures SameSeen(r.All(), Some(t), RunProgram(out, AsWritten, NOTHING_LOCAL, p, s, fuel))
    {
      ProgramMeans(out, layout, p, s, t);
      var f: nat :| RunProgram(out, AsWritten, layout, p, s, f) == Some(t);
      StorageUnobservable(out, AsWritten, p, tracked, r, s, f);
      SomeSeen(r.All(), Some(t), RunProgram(out, AsWritten, NOTHING_LOCAL, p, s, f));
      MoreFuelProgram(out, NOTHING_LOCAL, p, s, f, fuel);
      MoreFuelProgram(out, NOTHING_LOCAL, p, s, fuel, f);
    }
  }

  lemma SomeSeen(apart: set<string>, r: Option<Kept>, s: Option<Kept>)
    requires SameSeen(apart, r, s)
    ensures r.Some? <==> s.Some?
  {
  }

  lemma MoreFuelProgram(out: Outside, layout: Layout, p: Program, s: Kept, less: nat, more: nat)
    ensures less <= more && RunProgram(out, AsWritten, layout, p, s, less).Some?
      ==> RunProgram(out, AsWritten, layout, p, s, more) == RunProgram(out, AsWritten, layout, p, s, less)
  {
    hide Call, RecordLoop;
    if less <= more && RunProgram(out, AsWritten, layout, p, s, less).Some? {
      var s1 := Call(out.ops, AsWritten, out.atBegin, layout.begin, Actions(p.begin), s, less).value;
      MoreFuelCall(out.ops, out.atBegin, layout.begin, Actions(p.begin), s, less, more);
      var none := p.items == [] && p.end == [];
      if !none { MoreFuelLoop(out, layout.record, p.items, s1, less, more); }
      var s2 := if none then s1 else RecordLoop(out, AsWritten, layout.record, p.items, s1, less).value;
      MoreFuelCall(out.ops, AtEnd(out, s2), layout.end, Actions(p.end), s2, less, more);
    }
  }
}

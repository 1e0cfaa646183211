/** What a compiled program prints while it runs, whether it ends or not. */
module CompiledOutput {
  import opened Options
  import opened Syntax
  import opened Meaning
  import opened Effects
  import opened Readings
  import opened Machine
  import opened PhaseCorrectness
  import opened PhaseSimulation
  import opened Residency
  import opened ResidencySound
  import opened Storage
  import opened CompiledProgram
  import LS = LoweringSpec

  // ----- What the generated program prints -----

  /** At some point of a call that starts at `s` all that has been printed is `output`. */
  ghost predicate CallPrints(ops: FloatOps, builtins: BuiltinValues, locals: set<string>,
                             phase: Phase, s: Kept, output: seq<Event>)
    requires LS.LowerPhase(locals, phase).Some?
  {
    exists garbage, n: nat ::
      HasPrinted(Context(ops, builtins, locals, AsEmitted), phase, Entering(s), garbage, n, output)
  }

  /** The same for the driver's record loop, within `n` whole calls. */
  ghost predicate LoopPrints(out: Outside, locals: set<string>, items: seq<RecordItem>,
                             s: Kept, output: seq<Event>, n: nat)
    requires LS.LowerPhase(locals, Items(items)).Some?
    decreases n
  {
    if s.exit.Some? || Next(out, s).None? then output == s.output else
    var builtins := Next(out, s).value;
    || CallPrints(out.ops, builtins, locals, Items(items), Taking(s), output)
    || (n > 0 && exists s1 ::
        CallRuns(out.ops, builtins, locals, Items(items), Taking(s), s1)
          && LoopPrints(out, locals, items, s1, output, n - 1))
  }

  ghost predicate ReadsPrint(out: Outside, locals: set<string>, p: Program, s: Kept, output: seq<Event>)
    requires LS.LowerPhase(locals, Items(p.items)).Some?
  {
    !(p.items == [] && p.end == []) && exists n: nat :: LoopPrints(out, locals, p.items, s, output, n)
  }

  /** At some point of its run from `s` the program has printed just `output`. */
  ghost predicate ProgramPrints(out: Outside, layout: Layout, p: Program, s: Kept, output: seq<Event>)
    requires Supported(p, layout)
  {
    || CallPrints(out.ops, out.atBegin, layout.begin, Actions(p.begin), s, output)
    || exists s1 ::
        && CallRuns(out.ops, out.atBegin, layout.begin, Actions(p.begin), s, s1)
        && (ReadsPrint(out, layout.record, p, s1, output) || EndPrints(out, layout, p, s1, output))
  }

  ghost predicate EndPrints(out: Outside, layout: Layout, p: Program, s: Kept, output: seq<Event>)
    requires Supported(p, layout)
  {
    exists s2 :: ReadsRun(out, layout.record, p, s, s2)
      && CallPrints(out.ops, AtEnd(out, s2), layout.end, Actions(p.end), s2, output)
  }

  // ----- One call -----

  const CLEAN: Temp -> Double := t => ZERO

  lemma SameReading(ops: FloatOps, builtins: BuiltinValues, locals: set<string>, phase: Phase, s: Kept, fuel: nat)
    requires PhaseSafe(phase)
    ensures ExecPhase(Context(ops, builtins, locals, AsEmitted), phase, Entering(s), fuel).world.output
        == CallOutput(ops, AsWritten, builtins, locals, phase, s, fuel)
  {
    PhaseOnce(Context(ops, builtins, locals, AsWritten), Context(ops, builtins, locals, AsEmitted),
              phase, Entering(s), fuel);
    hide ExecPhase;
  }

  /** What the meaning of a call has printed with some fuel the call prints. */
  lemma CallIsPrinted(ops: FloatOps, builtins: BuiltinValues, locals: set<string>, phase: Phase, s: Kept, fuel: nat)
    requires ops.Lawful() && PhaseFits(locals, phase)
    ensures CallPrints(ops, builtins, locals, phase, s, CallOutput(ops, AsWritten, builtins, locals, phase, s, fuel))
  {
    hide LS.LowerPhase, ExecPhase, PhaseJoins, PhaseSafe, HasPrinted, CallOutput;
    SameReading(ops, builtins, locals, phase, s, fuel);
    var n := FunctionPrints(Context(ops, builtins, locals, AsEmitted), phase, Entering(s), CLEAN, fuel);
  }

  /** What a call prints its meaning has printed, and perhaps more, given enough fuel. */
  lemma CallHasPrinted(ops: FloatOps, builtins: BuiltinValues, locals: set<string>, phase: Phase, s: Kept,
                       output: seq<Event>) returns (enough: nat)
    requires ops.Lawful() && PhaseFits(locals, phase) && CallPrints(ops, builtins, locals, phase, s, output)
    ensures forall fuel :: fuel >= enough ==> output <= CallOutput(ops, AsWritten, builtins, locals, phase, s, fuel)
  {
    hide LS.LowerPhase, ExecPhase, PhaseJoins, PhaseSafe, HasPrinted, CallOutput;
    var cx := Context(ops, builtins, locals, AsEmitted);
    var garbage, n: nat :| HasPrinted(cx, phase, Entering(s), garbage, n, output);
    forall fuel: nat | fuel >= n
      ensures output <= CallOutput(ops, AsWritten, builtins, locals, phase, s, fuel)
    {
      SameReading(ops, builtins, locals, phase, s, fuel);
      PhasePrints(cx, phase, Entering(s), garbage, n, output, fuel);
    }
    enough := n;
  }

  lemma CallGrows(ops: FloatOps, builtins: BuiltinValues, locals: set<string>, phase: Phase, s: Kept, fuel: nat)
    requires ops.Lawful() && PhaseFits(locals, phase)
    ensures s.output <= CallOutput(ops, AsWritten, builtins, locals, phase, s, fuel)
    ensures
      var r := Call(ops, AsWritten, builtins, locals, phase, s, fuel);
      r.Some? ==> r.value.output == CallOutput(ops, AsWritten, builtins, locals, phase, s, fuel)
  {
    hide LS.LowerPhase, PhaseJoins, PhaseSafe, HasPrinted, ExecPhase;
    var cx := Context(ops, builtins, locals, AsEmitted);
    NothingPrinted(cx, phase, Entering(s), CLEAN);
    PhasePrints(cx, phase, Entering(s), CLEAN, 0, s.output, fuel);
    SameReading(ops, builtins, locals, phase, s, fuel);
  }

  // ----- The record loop -----

  lemma {:induction false} LoopGrows(out: Outside, locals: set<string>, items: seq<RecordItem>, s: Kept, fuel: nat)
    requires out.ops.Lawful() && PhaseFits(locals, Items(items))
    ensures s.output <= LoopOutput(out, AsWritten, locals, items, s, fuel)
    ensures
      var r := RecordLoop(out, AsWritten, locals, items, s, fuel);
      r.Some? ==> r.value.output == LoopOutput(out, AsWritten, locals, items, s, fuel)
    decreases fuel
  {
    hide Call, CallOutput, PhaseFits;
    var next := Next(out, s);
    if s.exit.None? && next.Some? && fuel > 0 {
      CallGrows(out.ops, next.value, locals, Items(items), Taking(s), fuel);
      var s1 := Call(out.ops, AsWritten, next.value, locals, Items(items), Taking(s), fuel);
      if s1.Some? { LoopGrows(out, locals, items, s1.value, fuel - 1); }
    }
  }

  /** What the meaning of the loop has printed with some fuel the loop prints. */
  lemma {:induction false} LoopIsPrinted(out: Outside, locals: set<string>, items: seq<RecordItem>, s: Kept, fuel: nat)
    requires out.ops.Lawful() && PhaseFits(locals, Items(items))
    ensures LoopPrints(out, locals, items, s, LoopOutput(out, AsWritten, locals, items, s, fuel), fuel)
    decreases fuel
  {
    hide Call, CallOutput, CallPrints, CallRuns, LS.LowerPhase, PhaseJoins, PhaseSafe;
    var next := Next(out, s);
    if s.exit.None? && next.Some? {
      if fuel == 0 {
        StartPrints(out.ops, next.value, locals, Items(items), Taking(s));
      } else {
        var r := Call(out.ops, AsWritten, next.value, locals, Items(items), Taking(s), fuel);
        if r.None? {
          CallIsPrinted(out.ops, next.value, locals, Items(items), Taking(s), fuel);
        } else {
          CallMeans(out.ops, next.value, locals, Items(items), Taking(s), r.value);
          LoopIsPrinted(out, locals, items, r.value, fuel - 1);
        }
      }
    }
  }

  lemma StartPrints(ops: FloatOps, builtins: BuiltinValues, locals: set<string>, phase: Phase, s: Kept)
    requires LS.LowerPhase(locals, phase).Some?
    ensures CallPrints(ops, builtins, locals, phase, s, s.output)
  {
    hide LS.LowerPhase, HasPrinted;
    NothingPrinted(Context(ops, builtins, locals, AsEmitted), phase, Entering(s), CLEAN);
  }

  /** What the loop prints its meaning has printed, and perhaps more, given enough fuel. */
  lemma {:induction false} LoopHasPrinted(out: Outside, locals: set<string>, items: seq<RecordItem>, s: Kept,
                                          output: seq<Event>, n: nat) returns (enough: nat)
    requires out.ops.Lawful() && PhaseFits(locals, Items(items)) && LoopPrints(out, locals, items, s, output, n)
    ensures forall fuel: nat :: fuel >= enough ==> output <= LoopOutput(out, AsWritten, locals, items, s, fuel)
    decreases n
  {
    hide Call, CallOutput, CallPrints, CallRuns, LS.LowerPhase, PhaseJoins, PhaseSafe;
    enough := 0;
    if s.exit.None? && Next(out, s).Some? {
      var builtins := Next(out, s).value;
      if CallPrints(out.ops, builtins, locals, Items(items), Taking(s), output) {
        var f := CallHasPrinted(out.ops, builtins, locals, Items(items), Taking(s), output);
        enough := f + 1;
        forall fuel: nat | fuel >= enough
          ensures output <= LoopOutput(out, AsWritten, locals, items, s, fuel)
        {
          CallGrows(out.ops, builtins, locals, Items(items), Taking(s), fuel);
          var r := Call(out.ops, AsWritten, builtins, locals, Items(items), Taking(s), fuel);
          if r.Some? { LoopGrows(out, locals, items, r.value, fuel - 1); }
        }
      } else {
        var s1 :| CallRuns(out.ops, builtins, locals, Items(items), Taking(s), s1)
            && LoopPrints(out, locals, items, s1, output, n - 1);
        CallMeans(out.ops, builtins, locals, Items(items), Taking(s), s1);
        var g: nat :| Call(out.ops, AsWritten, builtins, locals, Items(items), Taking(s), g) == Some(s1);
        var f := LoopHasPrinted(out, locals, items, s1, output, n - 1);
        enough := f + g + 1;
        forall fuel: nat | fuel >= enough
          ensures output <= LoopOutput(out, AsWritten, locals, items, s, fuel)
        {
          MoreFuelCall(out.ops, builtins, locals, Items(items), Taking(s), g, fuel);
        }
      }
    }
  }

  // ----- The whole program -----

  /** Whatever the program as written has printed with some fuel, the compiled program prints. */
  lemma SourceIsPrinted(out: Outside, layout: Layout, p: Program, s: Kept, fuel: nat)
    requires out.ops.Lawful() && Supported(p, layout)
    ensures ProgramPrints(out, layout, p, s, ProgramOutput(out, AsWritten, layout, p, s, fuel))
  {
    hide Call, CallOutput, CallPrints, CallRuns, LS.LowerPhase, PhaseJoins, PhaseSafe, OrderlyProgram, LoopPrints;
    hide LoopRuns, RecordLoop, LoopOutput;
    var begun := Call(out.ops, AsWritten, out.atBegin, layout.begin, Actions(p.begin), s, fuel);
    if begun.None? {
      CallIsPrinted(out.ops, out.atBegin, layout.begin, Actions(p.begin), s, fuel);
    } else {
      var s1, none := begun.value, p.items == [] && p.end == [];
      CallMeans(out.ops, out.atBegin, layout.begin, Actions(p.begin), s, s1);
      var looped := if none then Some(s1) else RecordLoop(out, AsWritten, layout.record, p.items, s1, fuel);
      if looped.None? {
        LoopIsPrinted(out, layout.record, p.items, s1, fuel);
        assert ReadsPrint(out, layout.record, p, s1, LoopOutput(out, AsWritten, layout.record, p.items, s1, fuel));
      } else {
        var s2 := looped.value;
        if !none { var n := LoopIsRun(out, layout.record, p.items, s1, fuel); }
        assert ReadsRun(out, layout.record, p, s1, s2);
        CallIsPrinted(out.ops, AtEnd(out, s2), layout.end, Actions(p.end), s2, fuel);
        assert EndPrints(out, layout, p, s1,
                         CallOutput(out.ops, AsWritten, AtEnd(out, s2), layout.end, Actions(p.end), s2, fuel));
      }
    }
  }

  /** What comes after BEGIN prints at least what BEGIN has printed. */
  lemma ProgramGrows(out: Outside, layout: Layout, p: Program, s: Kept, fuel: nat)
    requires out.ops.Lawful() && Supported(p, layout)
    ensures CallOutput(out.ops, AsWritten, out.atBegin, layout.begin, Actions(p.begin), s, fuel) <= ProgramOutput(out,
        AsWritten, layout, p, s, fuel)
    ensures
      var begun := Call(out.ops, AsWritten, out.atBegin, layout.begin, Actions(p.begin), s, fuel);
      begun.Some? && !(p.items == [] && p.end == []) ==>
        LoopOutput(out, AsWritten, layout.record, p.items, begun.value, fuel) <= ProgramOutput(out,
            AsWritten, layout, p, s, fuel)
  {
    hide Call, CallOutput, PhaseFits, OrderlyProgram, RecordLoop, LoopOutput;
    CallGrows(out.ops, out.atBegin, layout.begin, Actions(p.begin), s, fuel);
    var begun := Call(out.ops, AsWritten, out.atBegin, layout.begin, Actions(p.begin), s, fuel);
    if begun.Some? {
      var s1, none := begun.value, p.items == [] && p.end == [];
      LoopGrows(out, layout.record, p.items, s1, fuel);
      var looped := if none then Some(s1) else RecordLoop(out, AsWritten, layout.record, p.items, s1, fuel);
      if looped.Some? {
        CallGrows(out.ops, AtEnd(out, looped.value), layout.end, Actions(p.end), looped.value, fuel);
      }
    }
  }

  /** Whatever the compiled program prints, the program as written has printed, and perhaps more, given
      enough fuel. */
  lemma PrintedIsSource(out: Outside, layout: Layout, p: Program, s: Kept, output: seq<Event>) returns (fuel: nat)
    requires out.ops.Lawful() && Supported(p, layout) && ProgramPrints(out, layout, p, s, output)
    ensures output <= ProgramOutput(out, AsWritten, layout, p, s, fuel)
  {
    hide Call, CallOutput, CallPrints, CallRuns, PhaseJoins, PhaseSafe, LS.LowerPhase, OrderlyProgram, LoopPrints;
    hide LoopRuns, RecordLoop, LoopOutput, ProgramOutput;
    if CallPrints(out.ops, out.atBegin, layout.begin, Actions(p.begin), s, output) {
      fuel := CallHasPrinted(out.ops, out.atBegin, layout.begin, Actions(p.begin), s, output);
      ProgramGrows(out, layout, p, s, fuel);
    } else {
      var s1 :| CallRuns(out.ops, out.atBegin, layout.begin, Actions(p.begin), s, s1)
        && (ReadsPrint(out, layout.record, p, s1, output) || EndPrints(out, layout, p, s1, output));
      CallMeans(out.ops, out.atBegin, layout.begin, Actions(p.begin), s, s1);
      var f: nat :| Call(out.ops, AsWritten, out.atBegin, layout.begin, Actions(p.begin), s, f) == Some(s1);
      if ReadsPrint(out, layout.record, p, s1, output) {
        var n: nat :| LoopPrints(out, layout.record, p.items, s1, output, n);
        var g := LoopHasPrinted(out, layout.record, p.items, s1, output, n);
        fuel := f + g;
        MoreFuelCall(out.ops, out.atBegin, layout.begin, Actions(p.begin), s, f, fuel);
        ProgramGrows(out, layout, p, s, fuel);
      } else {
        fuel := EndHasPrinted(out, layout, p, s, s1, f, output);
      }
    }
  }

  lemma EndHasPrinted(out: Outside, layout: Layout, p: Program, s: Kept, s1: Kept, f: nat, output: seq<Event>)
    returns (fuel: nat)
    requires out.ops.Lawful() && Supported(p, layout) && EndPrints(out, layout, p, s1, output)
    requires Call(out.ops, AsWritten, out.atBegin, layout.begin, Actions(p.begin), s, f) == Some(s1)
    ensures output <= ProgramOutput(out, AsWritten, layout, p, s, fuel)
  {
    hide Call, CallOutput, CallPrints, CallRuns, PhaseJoins, PhaseSafe, LS.LowerPhase, OrderlyProgram, LoopRuns;
    hide RecordLoop, LoopOutput;
    var s2 :| ReadsRun(out, layout.record, p, s1, s2)
        && CallPrints(out.ops, AtEnd(out, s2), layout.end, Actions(p.end), s2, output);
    var none := p.items == [] && p.end == [];
    var g: nat := 0;
    if !none {
      var n: nat :| LoopRuns(out, layout.record, p.items, s1, s2, n);
      g := LoopIsMeant(out, layout.record, p.items, s1, s2, n);
    }
    var h := CallHasPrinted(out.ops, AtEnd(out, s2), layout.end, Actions(p.end), s2, output);
    fuel := f + g + h;
    MoreFuelCall(out.ops, out.atBegin, layout.begin, Actions(p.begin), s, f, fuel);
    if !none { MoreFuelLoop(out, layout.record, p.items, s1, g, fuel); }
  }

  /** The compiled program, with the variables where the classification puts them, prints what the
      program as written prints with every variable kept throughout, whether either ends or not: what
      the one has printed at some point the other prints, and may print more. */
  lemma CompiledPrintsSource(out: Outside, p: Program, tracked: set<string>, r: Residency, s: Kept)
    requires out.ops.Lawful() && Supported(p, LayoutOf(r)) && Classifies(p, tracked, r) && NoRangeName(tracked)
    ensures forall fuel: nat ::
      ProgramPrints(out, LayoutOf(r), p, s, ProgramOutput(out, AsWritten, NOTHING_LOCAL, p, s, fuel))
    ensures forall output :: ProgramPrints(out, LayoutOf(r), p, s, output) ==>
      exists fuel: nat :: output <= ProgramOutput(out, AsWritten, NOTHING_LOCAL, p, s, fuel)
  {
    hide ProgramPrints, ProgramOutput, RunProgram, Classifies, PhaseFits, OrderlyProgram, SameSeen;
    forall fuel: nat
      ensures ProgramPrints(out, LayoutOf(r), p, s, ProgramOutput(out, AsWritten, NOTHING_LOCAL, p, s, fuel))
    {
      StorageUnobservable(out, AsWritten, p, tracked, r, s, fuel);
      SourceIsPrinted(out, LayoutOf(r), p, s, fuel);
    }
    forall output | ProgramPrints(out, LayoutOf(r), p, s, output)
      ensures exists fuel: nat :: output <= ProgramOutput(out, AsWritten, NOTHING_LOCAL, p, s, fuel)
    {
      var fuel := PrintedIsSource(out, LayoutOf(r), p, s, output);
      StorageUnobservable(out, AsWritten, p, tracked, r, s, fuel);
    }
  }
}

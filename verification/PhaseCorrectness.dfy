/** The compiler theorem: a generated phase function returns exactly when the phase ends, with
    the variables, output and exit status the phase means, and it is never stuck. */
module PhaseCorrectness {
  import opened Options
  import opened Syntax
  import opened Meaning
  import opened Effects
  import opened Machine
  import opened ExprSimulation
  import opened StmtSimulation
  import opened WellFormed
  import opened PhaseSimulation
  import LS = LoweringSpec

  // ----- A function called -----

  /** The whole function: its entry block clears the cells and runs on into the body. */
  function Code(fn: LS.PhaseFunction): seq<Instr> {
    fn.entry + fn.body
  }

  /** Control at the entry block. The cells have been allocated and hold anything at all. */
  function Enter(fn: LS.PhaseFunction, w: World, garbage: Temp -> Double): Config {
    var cells := map t | t in fn.cells :: garbage(t);
    Config(0, None, None, map[], Memory(w.persistent, cells, w.output, w.exit))
  }

  predicate Returned(fn: LS.PhaseFunction, c: Config) {
    c.pc < |Code(fn)| && Code(fn)[c.pc].Ret?
  }

  /** What the caller of the function can see. */
  predicate Shows(m: Memory, w: World) {
    m.persistent == w.persistent && m.output == w.output && m.exit == w.exit
  }

  // ----- Code behind other code -----

  ghost predicate Markless(code: seq<Instr>) {
    forall i :: 0 <= i < |code| ==> !code[i].Mark?
  }

  lemma {:induction false} FindBehind(entry: seq<Instr>, body: seq<Instr>, l: Label)
    requires Markless(entry)
    ensures
      var f, g := Find(body, l), Find(entry + body, l);
      g == if f.None? then None else Some(|entry| + f.value)
    decreases entry
  {
    if entry == [] {
      assert entry + body == body;
    } else {
      assert (entry + body)[1..] == entry[1..] + body;
      FindBehind(entry[1..], body, l);
    }
  }

  function Behind(entry: seq<Instr>, c: Config): Config {
    c.(pc := |entry| + c.pc)
  }

  lemma StepBehind(h: Host, entry: seq<Instr>, body: seq<Instr>, c: Config)
    requires Markless(entry)
    ensures
      var s, t := Step(h, body, c), Step(h, entry + body, Behind(entry, c));
      t == if s.None? then None else Some(Behind(entry, s.value))
  {
    hide Find;
    if c.pc < |body| {
      var i := body[c.pc];
      assert (entry + body)[|entry| + c.pc] == i;
      if i.Br? { FindBehind(entry, body, i.target); }
      if i.CondBr? {
        FindBehind(entry, body, i.onTrue);
        FindBehind(entry, body, i.onFalse);
      }
    }
  }

  lemma {:induction false} RunBehind(h: Host, entry: seq<Instr>, body: seq<Instr>, c: Config, n: nat)
    requires Markless(entry) && Run(h, body, c, n).Some?
    ensures Run(h, entry + body, Behind(entry, c), n) == Some(Behind(entry, Run(h, body, c, n).value))
    decreases n
  {
    hide Step;
    if n > 0 {
      StepBehind(h, entry, body, c);
      RunBehind(h, entry, body, Step(h, body, c).value, n - 1);
    }
  }

  // ----- The entry block -----

  ghost predicate Clears(fn: LS.PhaseFunction) {
    && |fn.entry| == |fn.cells|
    && forall i :: 0 <= i < |fn.entry| ==> fn.entry[i] == Store(Literal(ZERO), Cell(fn.cells[i]))
  }

  /** After `n` stores the first `n` cells are zero, whatever they held before. */
  lemma {:induction false} EntryRuns(h: Host, fn: LS.PhaseFunction, w: World, garbage: Temp -> Double, n: nat)
    returns (c: Config)
    requires Clears(fn) && n <= |fn.entry|
    ensures Run(h, Code(fn), Enter(fn, w, garbage), n) == Some(c)
    ensures c == Enter(fn, w, garbage).(pc := n, memory := Memory(w.persistent, c.memory.cells, w.output, w.exit))
    ensures forall t :: t in fn.cells ==> t in c.memory.cells
    ensures forall i :: 0 <= i < n ==> c.memory.cells[fn.cells[i]] == ZERO
  {
    hide Run, Step, Enter;
    if n == 0 {
      c := NotYet(h, fn, w, garbage);
    } else {
      var c1 := EntryRuns(h, fn, w, garbage, n - 1);
      c := Cleared(h, fn, n - 1, c1);
      RunThen(h, Code(fn), Enter(fn, w, garbage), n - 1, 1);
    }
  }

  lemma NotYet(h: Host, fn: LS.PhaseFunction, w: World, garbage: Temp -> Double) returns (c: Config)
    ensures c == Enter(fn, w, garbage) && Run(h, Code(fn), c, 0) == Some(c) && c.pc == 0
    ensures c.memory == Memory(w.persistent, c.memory.cells, w.output, w.exit)
    ensures forall t :: t in fn.cells ==> t in c.memory.cells
  {
    c := Enter(fn, w, garbage);
  }

  /** One store of the entry block. */
  lemma Cleared(h: Host, fn: LS.PhaseFunction, i: nat, c: Config) returns (c': Config)
    requires Clears(fn) && i < |fn.entry| && c.pc == i && fn.cells[i] in c.memory.cells
    ensures Run(h, Code(fn), c, 1) == Some(c')
    ensures c' == c.(pc := i + 1, memory := c.memory.(cells := c.memory.cells[fn.cells[i] := ZERO]))
  {
    c' := c.(pc := i + 1, memory := c.memory.(cells := c.memory.cells[fn.cells[i] := ZERO]));
    assert Code(fn)[i] == Store(Literal(ZERO), Cell(fn.cells[i]));
    assert Step(h, Code(fn), c) == Some(c');
    assert Run(h, Code(fn), c', 0) == Some(c');
  }

  // ----- The whole call -----

  function SettingOf(cx: Context, em: Emitter): Setting {
    Setting(cx, em.code + TAIL, em.slots)
  }

  lemma SettingIsGood(cx: Context, phase: Phase)
    requires cx.reading.AsEmitted? && cx.ops.Lawful() && LS.LowerPhase(cx.locals, phase).Some?
    ensures var em := LS.LowerPhase(cx.locals, phase).value;
      SettingOf(cx, em).Good() && Within(SettingOf(cx, em), em) && Clears(LS.Render(em))
      && Find(em.code + TAIL, LS.EXIT) == Some(|em.code| + 1)
  {
    hide LS.LowerPhase, Count, Find;
    var em := LS.LowerPhase(cx.locals, phase).value;
    var code := em.code + TAIL;
    RenderedWellFormed(cx.locals, phase, 0, 0);
    forall i | 0 <= i < |code| && code[i].Mark?
      ensures Find(code, code[i].name) == Some(i)
    {
      var l := code[i].name;
      RenderedWellFormed(cx.locals, phase, l, 0);
      FindsFirst(code, i, l);
      var j := Find(code, l).value;
      if j < i { MarkedTwice(code, j, i, l); }
    }
    assert code[|em.code| + 1] == Mark(LS.EXIT);
  }

  /** The body of the phase, from the end of the entry block on. */
  lemma BodyRuns(k: Setting, phase: Phase, em: Emitter, w: World, c: Config, fuel: nat) returns (n: nat, c': Config)
    requires LS.LowerPhase(k.cx.locals, phase) == Some(em) && PhaseJoins(phase) && k == SettingOf(k.cx, em)
      && k.Good() && Within(k, em)
    requires Find(k.code, LS.EXIT) == Some(|em.code| + 1) && At(k, LS.START, w, c)
    ensures Ran(k, LS.AT_START, LS.START, em, ExecPhase(k.cx, phase, w, fuel), fuel, c, n, c')
  {
    hide Step, Related, Run, LS.Extends, Find, Within, Reaches, At, Keeps, Setting.Good, ActionJoins, ItemJoins;
    hide ExecActions, ExecItems;
    match phase
    case Actions(actions) => n, c' := SimActions(k, actions, LS.AT_START, LS.START, em, w, c, fuel);
    case Items(items) => n, c' := SimItems(k, items, LS.AT_START, LS.START, em, w, c, fuel);
  }

  /** Falling off the end of the body goes through the exit block to the return. */
  lemma BodyReturns(k: Setting, em: Emitter, r: Result, fuel: nat, c: Config, n: nat, c1: Config)
    returns (m: nat, c': Config)
    requires k == SettingOf(k.cx, em) && Find(k.code, LS.EXIT) == Some(|em.code| + 1)
    requires Ran(k, LS.AT_START, LS.START, em, r, fuel, c, n, c1)
    ensures Reaches(k, c, m, c') && Related(k, r.world, c'.memory)
    ensures if r.Done? then c'.pc == |em.code| + 2 else fuel <= m
  {
    hide Find, Run, Related, Keeps, Reaches;
    m, c' := n, c1;
    if r.Done? && r.outcome.Normal? {
      assert k.code[|em.code|] == Br(LS.EXIT);
      c' := Jump(k.code, LS.EXIT, c1).value;
      ThenStep(k, c, n, c1, c');
      m := n + 1;
    }
  }

  /** With fuel for the phase the function returns; without, it runs for at least as long, to where
      its caller could see what the phase had done when the fuel ran out. */
  lemma PhaseRuns(cx: Context, phase: Phase, w: World, garbage: Temp -> Double, fuel: nat) returns (n: nat, c': Config)
    requires cx.reading.AsEmitted? && cx.ops.Lawful() && PhaseJoins(phase) && LS.LowerPhase(cx.locals, phase).Some?
      && w.frame == map[]
    ensures
      var fn := LS.Render(LS.LowerPhase(cx.locals, phase).value);
      var r := ExecPhase(cx, phase, w, fuel);
      && Run(Host(cx.ops, cx.builtins), Code(fn), Enter(fn, w, garbage), n) == Some(c')
      && Shows(c'.memory, r.world)
      && (if r.Done? then Returned(fn, c') else fuel <= n)
  {
    hide LS.LowerPhase, Find, Step, Run, Ran, PhaseJoins, ExecPhase, Setting.Good;
    var em := LS.LowerPhase(cx.locals, phase).value;
    var fn, k, h := LS.Render(em), SettingOf(cx, em), Host(cx.ops, cx.builtins);
    SettingIsGood(cx, phase);
    var c0 := EntryRuns(h, fn, w, garbage, |fn.entry|);
    var c1 := c0.(pc := 0);
    EntryRelates(cx, phase, w, c1);
    var n2, c2 := BodyRuns(k, phase, em, w, c1, fuel);
    var n3, c3 := BodyReturns(k, em, ExecPhase(cx, phase, w, fuel), fuel, c1, n2, c2);
    assert fn.body == k.code;
    RunBehind(h, fn.entry, fn.body, c1, n3);
    RunThen(h, Code(fn), Enter(fn, w, garbage), |fn.entry|, n3);
    n, c' := |fn.entry| + n3, Behind(fn.entry, c3);
    assert Behind(fn.entry, c1) == c0;
    assert Code(fn)[|fn.entry| + |em.code| + 2] == Ret;
  }

  /** Zeroed cells are an empty frame. */
  lemma EntryRelates(cx: Context, phase: Phase, w: World, c: Config)
    requires LS.LowerPhase(cx.locals, phase).Some? && w.frame == map[]
    requires c.pc == 0 && c.memory.persistent == w.persistent && c.memory.output == w.output && c.memory.exit == w.exit
    requires forall t :: t in LS.LowerPhase(cx.locals, phase).value.cells ==>
      t in c.memory.cells && c.memory.cells[t] == ZERO
    ensures At(SettingOf(cx, LS.LowerPhase(cx.locals, phase).value), LS.START, w, c)
  {
    hide LS.LowerPhase;
    RenderedWellFormed(cx.locals, phase, 0, 0);
  }

  // ----- The theorem -----

  /** The function called with memory `w` returns after `n` steps at `c`. */
  ghost predicate CallReturns(cx: Context, phase: Phase, w: World, garbage: Temp -> Double, n: nat, c: Config)
    requires LS.LowerPhase(cx.locals, phase).Some?
  {
    var fn := LS.Render(LS.LowerPhase(cx.locals, phase).value);
    Run(Host(cx.ops, cx.builtins), Code(fn), Enter(fn, w, garbage), n) == Some(c) && Returned(fn, c)
  }

  /** A machine that has returned goes no further. */
  lemma ReturnsOnce(h: Host, fn: LS.PhaseFunction, c0: Config, n: nat, c: Config, m: nat)
    requires Run(h, Code(fn), c0, n) == Some(c) && Returned(fn, c)
    ensures m > n ==> Run(h, Code(fn), c0, m) == None
  {
    if m > n { RunThen(h, Code(fn), c0, n, m - n); }
  }

  lemma {:induction false} RunsBefore(h: Host, code: seq<Instr>, c: Config, n: nat, m: nat)
    requires n <= m && Run(h, code, c, m).Some?
    ensures Run(h, code, c, n).Some?
    decreases n
  {
    hide Step;
    if n > 0 { RunsBefore(h, code, Step(h, code, c).value, n - 1, m - 1); }
  }

  /** The function returns if and only if the phase ends, and then with what the phase means. */
  lemma PhaseMeans(cx: Context, phase: Phase, w: World, garbage: Temp -> Double)
    requires cx.reading.AsEmitted? && cx.ops.Lawful() && PhaseJoins(phase) && LS.LowerPhase(cx.locals, phase).Some?
      && w.frame == map[]
    ensures (exists n: nat, c :: CallReturns(cx, phase, w, garbage, n, c)) <==>
      (exists fuel: nat :: ExecPhase(cx, phase, w, fuel).Done?)
    ensures forall n: nat, c, fuel: nat ::
      (CallReturns(cx, phase, w, garbage, n, c) && ExecPhase(cx, phase, w, fuel).Done?) ==>
        Shows(c.memory, ExecPhase(cx, phase, w, fuel).world)
  {
    hide LS.LowerPhase, Step, Run, PhaseJoins, ExecPhase, LS.Render, Returned, Shows;
    var fn := LS.Render(LS.LowerPhase(cx.locals, phase).value);
    var h, c0 := Host(cx.ops, cx.builtins), Enter(fn, w, garbage);
    forall n: nat, c | CallReturns(cx, phase, w, garbage, n, c)
      ensures exists fuel: nat :: ExecPhase(cx, phase, w, fuel).Done?
    {
      var m, c' := PhaseRuns(cx, phase, w, garbage, n + 1);
      ReturnsOnce(h, fn, c0, n, c, m);
    }
    forall fuel: nat | ExecPhase(cx, phase, w, fuel).Done?
      ensures exists n: nat, c :: CallReturns(cx, phase, w, garbage, n, c)
    {
      var m, c' := PhaseRuns(cx, phase, w, garbage, fuel);
      assert CallReturns(cx, phase, w, garbage, m, c');
    }
    forall n: nat, c, fuel: nat | CallReturns(cx, phase, w, garbage, n, c) && ExecPhase(cx, phase, w, fuel).Done?
      ensures Shows(c.memory, ExecPhase(cx, phase, w, fuel).world)
    {
      var m, c' := PhaseRuns(cx, phase, w, garbage, fuel);
      ReturnsOnce(h, fn, c0, n, c, m);
      ReturnsOnce(h, fn, c0, m, c', n);
    }
  }

  /** No call is ever stuck: as long as it has not returned there is a next step. No label is
      missing, no temporary undefined, and every `phi` names the block control came from. */
  lemma NeverStuck(cx: Context, phase: Phase, w: World, garbage: Temp -> Double, n: nat)
    requires cx.reading.AsEmitted? && cx.ops.Lawful() && PhaseJoins(phase) && LS.LowerPhase(cx.locals, phase).Some?
      && w.frame == map[]
    ensures
      var fn := LS.Render(LS.LowerPhase(cx.locals, phase).value);
      || Run(Host(cx.ops, cx.builtins), Code(fn), Enter(fn, w, garbage), n).Some?
      || exists m: nat, c :: m < n && CallReturns(cx, phase, w, garbage, m, c)
  {
    hide LS.LowerPhase, Step, Run, PhaseJoins, ExecPhase, LS.Render, Returned, Shows;
    var fn := LS.Render(LS.LowerPhase(cx.locals, phase).value);
    var m, c' := PhaseRuns(cx, phase, w, garbage, n);
    if n <= m {
      RunsBefore(Host(cx.ops, cx.builtins), Code(fn), Enter(fn, w, garbage), n, m);
    } else {
      assert CallReturns(cx, phase, w, garbage, m, c');
    }
  }

  // ----- Calls that do not return -----

  lemma {:induction false} OutputGrows(h: Host, code: seq<Instr>, c: Config, n: nat)
    requires Run(h, code, c, n).Some?
    ensures c.memory.output <= Run(h, code, c, n).value.memory.output
    decreases n
  {
    if n > 0 {
      StepGrows(h, code, c);
      hide Step;
      OutputGrows(h, code, Step(h, code, c).value, n - 1);
    }
  }

  lemma StepGrows(h: Host, code: seq<Instr>, c: Config)
    requires Step(h, code, c).Some?
    ensures c.memory.output <= Step(h, code, c).value.memory.output
  {
    hide Find;
  }

  /** After `n` steps the function called with memory `w` has printed just `output`. */
  ghost predicate HasPrinted(cx: Context, phase: Phase, w: World, garbage: Temp -> Double, n: nat, output: seq<Event>)
    requires LS.LowerPhase(cx.locals, phase).Some?
  {
    var fn := LS.Render(LS.LowerPhase(cx.locals, phase).value);
    var c := Run(Host(cx.ops, cx.builtins), Code(fn), Enter(fn, w, garbage), n);
    c.Some? && c.value.memory.output == output
  }

  /** Returned or not, the function prints what the phase prints: whatever the phase has printed with
      some fuel the function has printed after some steps... */
  lemma FunctionPrints(cx: Context, phase: Phase, w: World, garbage: Temp -> Double, fuel: nat) returns (n: nat)
    requires cx.reading.AsEmitted? && cx.ops.Lawful() && PhaseJoins(phase) && LS.LowerPhase(cx.locals, phase).Some?
      && w.frame == map[]
    ensures HasPrinted(cx, phase, w, garbage, n, ExecPhase(cx, phase, w, fuel).world.output)
    ensures ExecPhase(cx, phase, w, fuel).OutOfFuel? ==> fuel <= n
  {
    hide LS.LowerPhase, Run, PhaseJoins, ExecPhase, LS.Render;
    var m, c := PhaseRuns(cx, phase, w, garbage, fuel);
    n := m;
  }

  /** ... and what the function has printed after `n` steps the phase has printed, and perhaps more,
      with any fuel from `n` on. */
  lemma PhasePrints(cx: Context, phase: Phase, w: World, garbage: Temp -> Double, n: nat, output: seq<Event>, fuel: nat)
    requires cx.reading.AsEmitted? && cx.ops.Lawful() && PhaseJoins(phase) && LS.LowerPhase(cx.locals, phase).Some?
      && w.frame == map[]
    requires HasPrinted(cx, phase, w, garbage, n, output) && n <= fuel
    ensures output <= ExecPhase(cx, phase, w, fuel).world.output
  {
    hide LS.LowerPhase, Run, PhaseJoins, ExecPhase, LS.Render;
    var fn := LS.Render(LS.LowerPhase(cx.locals, phase).value);
    var h, c0 := Host(cx.ops, cx.builtins), Enter(fn, w, garbage);
    var m, c := PhaseRuns(cx, phase, w, garbage, fuel);
    if n <= m {
      RunThen(h, Code(fn), c0, n, m - n);
      OutputGrows(h, Code(fn), Run(h, Code(fn), c0, n).value, m - n);
    } else {
      ReturnsOnce(h, fn, c0, m, c, n);
    }
  }

  /** At first it has printed nothing. */
  lemma NothingPrinted(cx: Context, phase: Phase, w: World, garbage: Temp -> Double)
    requires LS.LowerPhase(cx.locals, phase).Some?
    ensures HasPrinted(cx, phase, w, garbage, 0, w.output)
  {
    hide LS.LowerPhase, LS.Render;
  }
}

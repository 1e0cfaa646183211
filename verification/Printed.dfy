/** What small programs print, in the operations of the target machine: the reference for every
    operator, for the numbers the runtime keeps and for the two truth values. Each program prints the
    same by its meaning and by the function generated for it. */
module Printed {
  import opened Options
  import opened Syntax
  import opened Meaning
  import opened Machine
  import opened ExprSimulation
  import opened StmtSimulation
  import opened PhaseSimulation
  import opened PhaseCorrectness
  import opened CompiledProgram
  import opened WellFormedStmt
  import LS = LoweringSpec

  /** The record call of a program with one action and no pattern. */
  function RecordCall(action: Action): Phase {
    Items([RecordItem(Always, Some(action))])
  }

  /** The call prints `events`, whatever the variables hold and has been printed before: its meaning
      with any fuel, and the generated function, which returns, whatever its stack cells held. */
  ghost predicate Outputs(cx: Context, action: Action, events: seq<Event>) {
    && LS.LowerPhase(cx.locals, RecordCall(action)).Some?
    && (forall w: World, fuel: nat ::
        var r := ExecPhase(cx, RecordCall(action), w, fuel);
        r.Done? && r.world.output == w.output + events)
    && (forall w: World, garbage: Temp -> Double :: w.frame == map[] ==> Returns(cx, action, w, garbage, events))
  }

  /** The generated function, called with memory `w`, returns, and then has printed `events`. */
  ghost predicate Returns(cx: Context, action: Action, w: World, garbage: Temp -> Double, events: seq<Event>)
    requires LS.LowerPhase(cx.locals, RecordCall(action)).Some?
  {
    && (exists n: nat, c :: CallReturns(cx, RecordCall(action), w, garbage, n, c))
    && (forall n: nat, c :: CallReturns(cx, RecordCall(action), w, garbage, n, c) ==>
        c.memory.output == w.output + events)
  }

  ghost predicate Means(cx: Context, action: Action, events: seq<Event>) {
    forall w: World, fuel: nat ::
      var r := ExecAll(cx, action, w, fuel);
      r.Done? && r.world.output == w.output + events
  }

  /** What the meaning prints the generated function prints. */
  lemma Compiled(cx: Context, action: Action, events: seq<Event>)
    requires cx.reading.AsEmitted? && cx.ops.Lawful() && Means(cx, action, events)
    requires ActionJoins(Some(action)) && ActionAccepted(action, true)
    ensures Outputs(cx, action, events)
  {
    hide ExecAll, ActionJoins, ActionAccepted, CallReturns, LS.LowerPhase;
    var phase := RecordCall(action);
    AcceptedPhaseIsLowered(cx.locals, phase);
    forall w: World, fuel: nat
      ensures ExecPhase(cx, phase, w, fuel).Done? && ExecPhase(cx, phase, w, fuel).world.output == w.output + events
    {
      OneItem(cx, action, w, fuel);
    }
    hide ExecPhase;
    forall w: World, garbage: Temp -> Double | w.frame == map[]
      ensures Returns(cx, action, w, garbage, events)
    {
      PhaseMeans(cx, phase, w, garbage);
      assert ExecPhase(cx, phase, w, 0).Done?;
    }
  }

  lemma OneItem(cx: Context, action: Action, w: World, fuel: nat)
    ensures ExecPhase(cx, RecordCall(action), w, fuel).Done? == ExecAll(cx, action, w, fuel).Done?
    ensures ExecPhase(cx, RecordCall(action), w, fuel).world == ExecAll(cx, action, w, fuel).world
  {
    hide ExecAll;
    var item := RecordItem(Always, Some(action));
    assert [item][1..] == [];
    assert ExecItem(cx, item, w, fuel) == ExecAll(cx, action, w, fuel);
    assert ExecItems(cx, [item], w, fuel) == ExecItem(cx, item, w, fuel);
  }

  // ----- One number printed -----

  function Shown(v: Double): seq<Event> {
    [PrintedNumber(v), PrintedEnd]
  }

  /** Whatever the variables, the expression has the value `v` and prints nothing itself. */
  ghost predicate Evaluates(cx: Context, e: Expr, v: Double) {
    forall w :: Eval(cx, e, w).value == v && Eval(cx, e, w).world.output == w.output
  }

  lemma PrintsNumber(cx: Context, e: Expr, v: Double)
    requires cx.reading.AsEmitted? && cx.ops.Lawful() && NumberJoins(e) && Evaluates(cx, e, v)
    ensures Outputs(cx, [Print([e])], Shown(v))
  {
    hide Outputs, NumberJoins, Eval;
    var s := Print([e]);
    forall w: World, fuel: nat
      ensures ExecAll(cx, [s], w, fuel).Done? && ExecAll(cx, [s], w, fuel).world.output == w.output + Shown(v)
    {
      var r := Eval(cx, e, w);
      assert PrintAll(cx, [e], 1, Emit(PrintedNumber(r.value), r.world))
          == Emit(PrintedEnd, Emit(PrintedNumber(r.value), r.world));
      assert PrintAll(cx, [e], 0, w) == Emit(PrintedEnd, Emit(PrintedNumber(r.value), r.world));
      assert Exec(cx, s, w, fuel) == Done(Normal, PrintAll(cx, [e], 0, w));
      assert [s][1..] == [];
    }
    PlainAction(s);
    Compiled(cx, [s], Shown(v));
  }

  lemma PlainAction(s: Stmt)
    requires s.Print? && AllJoin(s.arguments)
    ensures ActionJoins(Some([s])) && ActionAccepted([s], true)
  {
  }

  /** `{ print NR }`, `{ print FNR }` and `{ print NF }` print just those. */
  lemma BuiltinsPrinted(cx: Context)
    requires cx.reading.AsEmitted? && cx.ops.Lawful()
    ensures Outputs(cx, [Print([Builtin(NR)])], Shown(cx.builtins.nr))
    ensures Outputs(cx, [Print([Builtin(FNR)])], Shown(cx.builtins.fnr))
    ensures Outputs(cx, [Print([Builtin(NF)])], Shown(cx.builtins.nf))
  {
    hide Outputs;
    PrintsNumber(cx, Builtin(NR), cx.builtins.nr);
    PrintsNumber(cx, Builtin(FNR), cx.builtins.fnr);
    PrintsNumber(cx, Builtin(NF), cx.builtins.nf);
  }

  // ----- The operators -----

  /** What a condition prints. */
  function Truth(b: bool): Double {
    if b then ONE else ZERO
  }

  function Holds(cx: Context, x: Double): bool {
    cx.ops.compare(NotEqual, x, ZERO)
  }

  lemma LiteralIs(cx: Context, x: Double, w: World)
    ensures Eval(cx, Number(x), w) == Evaluated(x, w)
  {
  }

  lemma ArithIsPrinted(cx: Context, op: ArithOp, x: Double, y: Double, v: Double)
    requires cx.reading.AsEmitted? && cx.ops.Lawful() && v == cx.ops.Arith(op, x, y)
    ensures Outputs(cx, [Print([Arith(op, Number(x), Number(y))])], Shown(v))
  {
    hide Outputs;
    var e := Arith(op, Number(x), Number(y));
    forall w
      ensures Eval(cx, e, w).value == v && Eval(cx, e, w).world.output == w.output
    {
      LiteralIs(cx, x, w);
      LiteralIs(cx, y, w);
    }
    assert NumberJoins(Number(x)) && NumberJoins(Number(y));
    PrintsNumber(cx, e, v);
  }

  /** The arithmetic operators on any two numbers. */
  lemma ArithmeticPrinted(cx: Context, x: Double, y: Double)
    requires cx.reading.AsEmitted? && cx.ops.Lawful()
    ensures Outputs(cx, [Print([Arith(Add, Number(x), Number(y))])], Shown(cx.ops.add(x, y)))
    ensures Outputs(cx, [Print([Arith(Sub, Number(x), Number(y))])], Shown(cx.ops.sub(x, y)))
    ensures Outputs(cx, [Print([Arith(Mul, Number(x), Number(y))])], Shown(cx.ops.mul(x, y)))
    ensures Outputs(cx, [Print([Arith(Div, Number(x), Number(y))])], Shown(cx.ops.div(x, y)))
    ensures Outputs(cx, [Print([Arith(Pow, Number(x), Number(y))])], Shown(cx.ops.pow(x, y)))
    ensures Outputs(cx, [Print([Arith(Mod, Number(x), Number(y))])],
                    Shown(cx.ops.sub(x, cx.ops.mul(cx.ops.trunc(cx.ops.div(x, y)), y))))
  {
    hide Outputs;
    ArithIsPrinted(cx, Add, x, y, cx.ops.add(x, y));
    ArithIsPrinted(cx, Sub, x, y, cx.ops.sub(x, y));
    ArithIsPrinted(cx, Mul, x, y, cx.ops.mul(x, y));
    ArithIsPrinted(cx, Div, x, y, cx.ops.div(x, y));
    ArithIsPrinted(cx, Pow, x, y, cx.ops.pow(x, y));
    ArithIsPrinted(cx, Mod, x, y, cx.ops.sub(x, cx.ops.mul(cx.ops.trunc(cx.ops.div(x, y)), y)));
  }

  /** A sign on any number. */
  lemma SignsPrinted(cx: Context, x: Double)
    requires cx.reading.AsEmitted? && cx.ops.Lawful()
    ensures Outputs(cx, [Print([Sign(UPlus, Number(x))])], Shown(x))
    ensures Outputs(cx, [Print([Sign(UMinus, Number(x))])], Shown(cx.ops.sub(ZERO, x)))
    ensures Outputs(cx, [Print([Sign(Not, Number(x))])], Shown(Truth(!Holds(cx, x))))
  {
    hide Outputs;
    forall w, sop
      ensures Eval(cx, Sign(sop, Number(x)), w).world == w
      ensures Eval(cx, Sign(sop, Number(x)), w).value ==
        match sop case UPlus => x case UMinus => cx.ops.sub(ZERO, x) case Not => Truth(!Holds(cx, x))
    {
      LiteralIs(cx, x, w);
    }
    assert NumberJoins(Number(x)) && ConditionJoins(Number(x));
    PrintsNumber(cx, Sign(UPlus, Number(x)), x);
    PrintsNumber(cx, Sign(UMinus, Number(x)), cx.ops.sub(ZERO, x));
    PrintsNumber(cx, Sign(Not, Number(x)), Truth(!Holds(cx, x)));
  }

  /** Comparisons, `&&`, `||` and the ternary on any numbers. */
  lemma ConditionsPrinted(cx: Context, op: CompareOp, x: Double, y: Double, z: Double)
    requires cx.reading.AsEmitted? && cx.ops.Lawful()
    ensures Outputs(cx, [Print([Compare(op, Number(x), Number(y))])], Shown(Truth(cx.ops.compare(op, x, y))))
    ensures Outputs(cx, [Print([And(Number(x), Number(y))])], Shown(Truth(Holds(cx, x) && Holds(cx, y))))
    ensures Outputs(cx, [Print([Or(Number(x), Number(y))])], Shown(Truth(Holds(cx, x) || Holds(cx, y))))
    ensures Outputs(cx, [Print([Conditional(Number(x), Number(y), Number(z))])], Shown(if Holds(cx, x) then y else z))
  {
    hide Outputs;
    var compared, both := Compare(op, Number(x), Number(y)), And(Number(x), Number(y));
    var either, chosen := Or(Number(x), Number(y)), Conditional(Number(x), Number(y), Number(z));
    forall w
      ensures Eval(cx, compared, w) == Evaluated(Truth(cx.ops.compare(op, x, y)), w)
      ensures Eval(cx, both, w) == Evaluated(Truth(Holds(cx, x) && Holds(cx, y)), w)
      ensures Eval(cx, either, w) == Evaluated(Truth(Holds(cx, x) || Holds(cx, y)), w)
      ensures Eval(cx, chosen, w) == Evaluated(if Holds(cx, x) then y else z, w)
    {
      LiteralIs(cx, x, w);
      LiteralIs(cx, y, w);
      LiteralIs(cx, z, w);
    }
    hide Eval;
    LiteralsJoin(op, x, y, z);
    PrintsNumber(cx, compared, Truth(cx.ops.compare(op, x, y)));
    PrintsNumber(cx, both, Truth(Holds(cx, x) && Holds(cx, y)));
    PrintsNumber(cx, either, Truth(Holds(cx, x) || Holds(cx, y)));
    PrintsNumber(cx, chosen, if Holds(cx, x) then y else z);
  }

  lemma LiteralsJoin(op: CompareOp, x: Double, y: Double, z: Double)
    ensures NumberJoins(Compare(op, Number(x), Number(y))) && NumberJoins(And(Number(x), Number(y)))
    ensures NumberJoins(Or(Number(x), Number(y))) && NumberJoins(Conditional(Number(x), Number(y), Number(z)))
  {
    assert forall v :: NumberJoins(Number(v)) && ConditionJoins(Number(v)) && !HasSideEffects(Number(v));
  }

  // ----- Assignments -----

  /** `{ x = v; .. ; print e, x }` */
  function Setting(x: string, v: Double, e: Expr): Action {
    [AssignStmt(x, Plain, Number(v)), Print([e, Name(x)])]
  }

  function ShownTwo(v: Double, u: Double): seq<Event> {
    [PrintedNumber(v), PrintedSeparator, PrintedNumber(u), PrintedEnd]
  }

  /** Where `x` is `v`, the expression has the value `r`, leaves `u` in `x`, and prints nothing. */
  ghost predicate Leaves(cx: Context, x: string, v: Double, e: Expr, r: Double, u: Double) {
    forall w :: Read(cx, x, w) == v ==>
      var q := Eval(cx, e, w);
      q.value == r && q.world.output == w.output && Read(cx, x, q.world) == u
  }

  lemma PrintsBoth(cx: Context, x: string, v: Double, e: Expr, r: Double, u: Double)
    requires cx.reading.AsEmitted? && cx.ops.Lawful() && NumberJoins(e) && Leaves(cx, x, v, e, r, u)
    ensures Outputs(cx, Setting(x, v, e), ShownTwo(r, u))
  {
    hide Outputs, NumberJoins;
    var set_, print_ := AssignStmt(x, Plain, Number(v)), Print([e, Name(x)]);
    forall w: World, fuel: nat
      ensures
        var q := ExecAll(cx, Setting(x, v, e), w, fuel);
        q.Done? && q.world.output == w.output + ShownTwo(r, u)
    {
      var w1 := Write(cx, x, v, w);
      PrintTwo(cx, x, e, w1);
      LiteralIs(cx, v, w);
      BothRun(cx, set_, print_, w, w1, fuel);
      assert w1.output == w.output && Read(cx, x, w1) == v;
    }
    LeavesJoin(v, x);
    PlainActions(set_, print_);
    assert Setting(x, v, e) == [set_, print_];
    Compiled(cx, Setting(x, v, e), ShownTwo(r, u));
  }

  lemma LeavesJoin(v: Double, x: string)
    ensures NumberJoins(Number(v)) && NumberJoins(Name(x))
  {
  }

  lemma BothRun(cx: Context, s: Stmt, t: Stmt, w: World, w1: World, fuel: nat)
    requires s.AssignStmt? && s.aop.Plain? && t.Print? && t.arguments != []
    requires Write(cx, s.target, Eval(cx, s.value, w).value, Eval(cx, s.value, w).world) == w1
    ensures ExecAll(cx, [s, t], w, fuel) == Done(Normal, PrintAll(cx, t.arguments, 0, w1))
  {
    hide Eval, PrintAll;
    assert [s, t][1..] == [t] && [t][1..] == [];
    assert Exec(cx, s, w, fuel) == Done(Normal, w1);
    assert ExecAll(cx, [t], w1, fuel) == Done(Normal, PrintAll(cx, t.arguments, 0, w1));
  }

  lemma PrintTwo(cx: Context, x: string, e: Expr, w: World)
    ensures
      var q := Eval(cx, e, w);
      PrintAll(cx, [e, Name(x)], 0, w).output == q.world.output + ShownTwo(q.value, Read(cx, x, q.world))
  {
    var q := Eval(cx, e, w);
    var w1 := Emit(PrintedSeparator, Emit(PrintedNumber(q.value), q.world));
    NameIs(cx, x, w1);
    hide Eval;
    var w2 := Emit(PrintedNumber(Read(cx, x, w1)), NoteRead(x, w1));
    assert PrintAll(cx, [e, Name(x)], 2, w2) == Emit(PrintedEnd, w2);
    assert PrintAll(cx, [e, Name(x)], 1, Emit(PrintedNumber(q.value), q.world)) == Emit(PrintedEnd, w2);
  }

  lemma NameIs(cx: Context, x: string, w: World)
    ensures Eval(cx, Name(x), w) == Evaluated(Read(cx, x, w), NoteRead(x, w))
  {
  }

  lemma PlainActions(s: Stmt, t: Stmt)
    requires s.AssignStmt? && NumberJoins(s.value) && t.Print? && AllJoin(t.arguments)
    ensures ActionJoins(Some([s, t])) && ActionAccepted([s, t], true)
  {
  }

  /** The four increments of a variable that is `v`. */
  lemma IncrementsPrinted(cx: Context, x: string, v: Double)
    requires cx.reading.AsEmitted? && cx.ops.Lawful()
    ensures Outputs(cx, Setting(x, v, Increment(x, true, true)), ShownTwo(v, cx.ops.add(v, ONE)))
    ensures Outputs(cx, Setting(x, v, Increment(x, true, false)), ShownTwo(cx.ops.add(v, ONE), cx.ops.add(v, ONE)))
    ensures Outputs(cx, Setting(x, v, Increment(x, false, true)), ShownTwo(v, cx.ops.sub(v, ONE)))
    ensures Outputs(cx, Setting(x, v, Increment(x, false, false)), ShownTwo(cx.ops.sub(v, ONE), cx.ops.sub(v, ONE)))
  {
    hide Outputs;
    PrintsBoth(cx, x, v, Increment(x, true, true), v, cx.ops.add(v, ONE));
    PrintsBoth(cx, x, v, Increment(x, true, false), cx.ops.add(v, ONE), cx.ops.add(v, ONE));
    PrintsBoth(cx, x, v, Increment(x, false, true), v, cx.ops.sub(v, ONE));
    PrintsBoth(cx, x, v, Increment(x, false, false), cx.ops.sub(v, ONE), cx.ops.sub(v, ONE));
  }

  lemma AssignIsPrinted(cx: Context, x: string, v: Double, aop: AssignOp, y: Double, u: Double)
    requires cx.reading.AsEmitted? && cx.ops.Lawful()
    requires u == if aop.Plain? then y else cx.ops.Arith(aop.op, v, y)
    ensures Outputs(cx, Setting(x, v, Assign(x, aop, Number(y))), ShownTwo(u, u))
  {
    hide Outputs;
    var e := Assign(x, aop, Number(y));
    forall w | Read(cx, x, w) == v
      ensures var q := Eval(cx, e, w); q.value == u && q.world.output == w.output && Read(cx, x, q.world) == u
    {
      LiteralIs(cx, y, if aop.Plain? then w else NoteRead(x, w));
    }
    LeavesJoin(y, x);
    PrintsBoth(cx, x, v, e, u, u);
  }

  /** A plain assignment, and the compound ones to a variable that is `v`; each has the value it stores. */
  lemma AssignmentsPrinted(cx: Context, x: string, v: Double, y: Double)
    requires cx.reading.AsEmitted? && cx.ops.Lawful()
    ensures Outputs(cx, Setting(x, v, Assign(x, Plain, Number(y))), ShownTwo(y, y))
    ensures var u := cx.ops.add(v, y); Outputs(cx, Setting(x, v, Assign(x, Compound(Add), Number(y))), ShownTwo(u, u))
    ensures var u := cx.ops.sub(v, y); Outputs(cx, Setting(x, v, Assign(x, Compound(Sub), Number(y))), ShownTwo(u, u))
    ensures var u := cx.ops.mul(v, y); Outputs(cx, Setting(x, v, Assign(x, Compound(Mul), Number(y))), ShownTwo(u, u))
    ensures var u := cx.ops.div(v, y); Outputs(cx, Setting(x, v, Assign(x, Compound(Div), Number(y))), ShownTwo(u, u))
    ensures var u := cx.ops.pow(v, y); Outputs(cx, Setting(x, v, Assign(x, Compound(Pow), Number(y))), ShownTwo(u, u))
    ensures
      var u := cx.ops.sub(v, cx.ops.mul(cx.ops.trunc(cx.ops.div(v, y)), y));
      Outputs(cx, Setting(x, v, Assign(x, Compound(Mod), Number(y))), ShownTwo(u, u))
  {
    hide Outputs;
    AssignIsPrinted(cx, x, v, Plain, y, y);
    AssignIsPrinted(cx, x, v, Compound(Add), y, cx.ops.add(v, y));
    AssignIsPrinted(cx, x, v, Compound(Sub), y, cx.ops.sub(v, y));
    AssignIsPrinted(cx, x, v, Compound(Mul), y, cx.ops.mul(v, y));
    AssignIsPrinted(cx, x, v, Compound(Div), y, cx.ops.div(v, y));
    AssignIsPrinted(cx, x, v, Compound(Pow), y, cx.ops.pow(v, y));
    AssignIsPrinted(cx, x, v, Compound(Mod), y, cx.ops.sub(v, cx.ops.mul(cx.ops.trunc(cx.ops.div(v, y)), y)));
  }

  // ----- The truth values as doubles -----

  function TwoTo(n: int): real
    decreases if n < 0 then -n else n
  {
    if n == 0 then 1.0 else if n > 0 then 2.0 * TwoTo(n - 1) else TwoTo(n + 1) / 2.0
  }

  /** The number a double's bit pattern stands for, infinities and NaNs apart: a sign bit, eleven bits of
      biased exponent and fifty-two of fraction, in the binary64 format of IEEE 754, section 3.4. */
  function Amount(d: Double): real
    requires 0 <= d.bits < 0x1_0000_0000_0000_0000
  {
    var sign, exponent := d.bits / 0x8000_0000_0000_0000, d.bits / 0x10_0000_0000_0000 % 0x800;
    var fraction := (d.bits % 0x10_0000_0000_0000) as real / 4503599627370496.0;
    var size := if exponent == 0 then fraction * TwoTo(-1022) else (1.0 + fraction) * TwoTo(exponent - 1023);
    if sign == 1 then -size else size
  }

  /** What stands for true, and what an increment adds, is one; what stands for false, and what a variable
      holds before it is assigned, is zero. Nothing is asked of the operations but that these two are so. */
  lemma TruthValues()
    ensures Amount(ONE) == 1.0 && Amount(ZERO) == 0.0
    ensures forall ops: FloatOps :: ops.Lawful() <==>
      ops.compare(NotEqual, Double(0x3ff0000000000000), Double(0)) && !ops.compare(NotEqual, Double(0), Double(0))
  {
  }
}

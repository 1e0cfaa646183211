/** The structured meaning of the fragment: what an expression, a statement, a phase and a
    whole program do to the variables and the output. Loops may run for ever, so statements
    are run with fuel; only the number of loop turns consumes it. */
module Meaning {
  import opened Options
  import opened Syntax

  /** The double operations of the target machine, as total functions on bit patterns. */
  datatype FloatOps = FloatOps(
    add: (Double, Double) -> Double,
    sub: (Double, Double) -> Double,
    mul: (Double, Double) -> Double,
    div: (Double, Double) -> Double,
    pow: (Double, Double) -> Double,
    trunc: Double -> Double,
    compare: (CompareOp, Double, Double) -> bool,
    status: Double -> int)
  {
    /** One is true and zero is false; the only law the lowering relies on. */
    ghost predicate Lawful() {
      compare(NotEqual, ONE, ZERO) && !compare(NotEqual, ZERO, ZERO)
    }

    function Arith(op: ArithOp, x: Double, y: Double): Double {
      match op
      case Add => add(x, y)
      case Sub => sub(x, y)
      case Mul => mul(x, y)
      case Div => div(x, y)
      case Mod => sub(x, mul(trunc(div(x, y)), y))
      case Pow => pow(x, y)
    }

    predicate Truthy(x: Double) {
      compare(NotEqual, x, ZERO)
    }
  }

  function FromBool(b: bool): Double {
    if b then ONE else ZERO
  }

  datatype BuiltinValues = BuiltinValues(nr: Double, fnr: Double, nf: Double) {
    function Get(which: BuiltinName): Double {
      match which
      case NR => nr
      case FNR => fnr
      case NF => nf
    }
  }

  datatype Event =
    | PrintedNumber(value: Double)
    | PrintedSeparator
    | PrintedEnd
    | PrintedRecord
    | SkippedFile

  /** Everything a program can observe or change. `persistent` holds the cells that survive
      between calls, `frame` the cells of the current call. `written` and `early` watch the
      run: the names written so far in this call, and the names read before being written. */
  datatype World = World(
    persistent: map<string, Double>,
    frame: map<string, Double>,
    output: seq<Event>,
    exit: Option<int>,
    written: set<string>,
    early: set<string>)

  function Lookup(cells: map<string, Double>, name: string): Double {
    if name in cells then cells[name] else ZERO
  }

  /** `AsWritten` evaluates every operand once. `AsEmitted` is what the emitted code does: a
      comparison that is not definitely numeric evaluates each operand as text and as number. */
  datatype Reading = AsWritten | AsEmitted

  datatype Context = Context(ops: FloatOps, builtins: BuiltinValues, locals: set<string>, reading: Reading)

  function Read(cx: Context, name: string, w: World): Double {
    if name in cx.locals then Lookup(w.frame, name) else Lookup(w.persistent, name)
  }

  function NoteRead(name: string, w: World): World {
    if name in w.written then w else w.(early := w.early + {name})
  }

  function Write(cx: Context, name: string, value: Double, w: World): World {
    var w1 := w.(written := w.written + {name});
    if name in cx.locals then w1.(frame := w1.frame[name := value])
    else w1.(persistent := w1.persistent[name := value])
  }

  function Emit(event: Event, w: World): World {
    w.(output := w.output + [event])
  }

  datatype Evaluated = Evaluated(value: Double, world: World)

  function Eval(cx: Context, e: Expr, w: World): Evaluated
    decreases e, 0
  {
    match e
    case Number(v) => Evaluated(v, w)
    case Name(x) => Evaluated(Read(cx, x, w), NoteRead(x, w))
    case Builtin(which) => Evaluated(cx.builtins.Get(which), w)
    case Assign(x, aop, right) =>
      // The old value is taken before the right side runs.
      var current := Read(cx, x, w);
      var w1 := if aop.Plain? then w else NoteRead(x, w);
      var r := Eval(cx, right, w1);
      var v := if aop.Plain? then r.value else cx.ops.Arith(aop.op, current, r.value);
      Evaluated(v, Write(cx, x, v, r.world))
    case Sign(sop, operand) =>
      var r := Eval(cx, operand, w);
      var v := match sop
        case UPlus => r.value
        case UMinus => cx.ops.sub(ZERO, r.value)
        case Not => FromBool(!cx.ops.Truthy(r.value));
      Evaluated(v, r.world)
    case Increment(x, up, returnOld) =>
      var before := Read(cx, x, w);
      var after := if up then cx.ops.add(before, ONE) else cx.ops.sub(before, ONE);
      Evaluated(if returnOld then before else after, Write(cx, x, after, NoteRead(x, w)))
    case Arith(op, l, r) =>
      var lv := Eval(cx, l, w);
      var rv := Eval(cx, r, lv.world);
      Evaluated(cx.ops.Arith(op, lv.value, rv.value), rv.world)
    case Compare(op, l, r) =>
      var lv := EvalOperand(cx, e, l, w);
      var rv := EvalOperand(cx, e, r, lv.world);
      Evaluated(FromBool(cx.ops.compare(op, lv.value, rv.value)), rv.world)
    case And(l, r) =>
      var lv := Eval(cx, l, w);
      if !cx.ops.Truthy(lv.value) then Evaluated(ZERO, lv.world) else
      var rv := Eval(cx, r, lv.world);
      Evaluated(FromBool(cx.ops.Truthy(rv.value)), rv.world)
    case Or(l, r) =>
      var lv := Eval(cx, l, w);
      if cx.ops.Truthy(lv.value) then Evaluated(ONE, lv.world) else
      var rv := Eval(cx, r, lv.world);
      Evaluated(FromBool(cx.ops.Truthy(rv.value)), rv.world)
    case Conditional(c, t, f) =>
      var cv := Eval(cx, c, w);
      if cx.ops.Truthy(cv.value) then Eval(cx, t, cv.world) else Eval(cx, f, cv.world)
  }

  /** One operand of the comparison `e`; twice over when the emitted code does so. */
  function EvalOperand(cx: Context, e: Expr, operand: Expr, w: World): Evaluated
    requires e.Compare? && (operand == e.left || operand == e.right)
    decreases operand, 1
  {
    if cx.reading.AsEmitted? && !ComparesNumbers(e)
    then Eval(cx, operand, Eval(cx, operand, w).world)
    else Eval(cx, operand, w)
  }

  datatype Outcome = Normal | Broke | Continued | Left

  datatype Result = OutOfFuel(world: World) | Done(outcome: Outcome, world: World)

  function EvalAll(cx: Context, es: seq<Expr>, w: World): World {
    if es == [] then w else EvalAll(cx, es[1..], Eval(cx, es[0], w).world)
  }

  function PrintAll(cx: Context, es: seq<Expr>, index: nat, w: World): World
    requires index <= |es|
    decreases |es| - index
  {
    if index == |es| then Emit(PrintedEnd, w) else
    var w1 := if index > 0 then Emit(PrintedSeparator, w) else w;
    var r := Eval(cx, es[index], w1);
    PrintAll(cx, es, index + 1, Emit(PrintedNumber(r.value), r.world))
  }

  function Exec(cx: Context, s: Stmt, w: World, fuel: nat): Result
    decreases fuel, s, 1
  {
    match s
    case AssignStmt(x, aop, value) =>
      // The old value is taken after the right side has run.
      var r := Eval(cx, value, w);
      var w1 := if aop.Plain? then r.world else NoteRead(x, r.world);
      var v := if aop.Plain? then r.value else cx.ops.Arith(aop.op, Read(cx, x, r.world), r.value);
      Done(Normal, Write(cx, x, v, w1))
    case ExprStmt(e) => Done(Normal, Eval(cx, e, w).world)
    case Print(es) =>
      Done(Normal, if es == [] then Emit(PrintedRecord, w) else PrintAll(cx, es, 0, w))
    case Block(ss) => ExecAll(cx, ss, w, fuel)
    case If(c, t, e) =>
      var r := Eval(cx, c, w);
      if cx.ops.Truthy(r.value) then Exec(cx, t, r.world, fuel)
      else if e.Some? then Exec(cx, e.value, r.world, fuel)
      else Done(Normal, r.world)
    case While(c, body) =>
      if fuel == 0 then OutOfFuel(w) else
      var r := Eval(cx, c, w);
      if !cx.ops.Truthy(r.value) then Done(Normal, r.world) else
      AfterBody(cx, s, Exec(cx, body, r.world, fuel), fuel - 1)
    case DoWhile(body, c) =>
      if fuel == 0 then OutOfFuel(w) else
      AfterBody(cx, s, Exec(cx, body, w, fuel), fuel - 1)
    case For(init, test, update, body) =>
      ExecFor(cx, s, EvalAll(cx, init, w), fuel)
    case BreakStmt => Done(Broke, w)
    case ContinueStmt => Done(Continued, w)
    case NextStmt => Done(Left, w)
    case NextFileStmt => Done(Left, Emit(SkippedFile, w))
    case ExitStmt(status) =>
      if status.None? then Done(Left, w.(exit := Some(0))) else
      var r := Eval(cx, status.value, w);
      Done(Left, r.world.(exit := Some(cx.ops.status(r.value))))
  }

  function ExecAll(cx: Context, ss: seq<Stmt>, w: World, fuel: nat): Result
    decreases fuel, ss, 1
  {
    if ss == [] then Done(Normal, w) else
    var r := Exec(cx, ss[0], w, fuel);
    if r.Done? && r.outcome.Normal? then ExecAll(cx, ss[1..], r.world, fuel) else r
  }

  /** The test of a `for` loop and, while it holds, the body, the update and the next turn. */
  function ExecFor(cx: Context, s: Stmt, w: World, fuel: nat): Result
    requires s.For?
    decreases fuel, s, 0
  {
    if fuel == 0 then OutOfFuel(w) else
    var r := if s.test.None? then Evaluated(ONE, w) else Eval(cx, s.test.value, w);
    if s.test.Some? && !cx.ops.Truthy(r.value) then Done(Normal, r.world) else
    AfterBody(cx, s, Exec(cx, s.body, r.world, fuel), fuel - 1)
  }

  /** What a loop does once its body has come to an end. */
  function AfterBody(cx: Context, s: Stmt, body: Result, fuel: nat): Result
    requires s.While? || s.DoWhile? || s.For?
    decreases fuel, s, 2
  {
    if body.OutOfFuel? || body.outcome.Left? then body
    else if body.outcome.Broke? then Done(Normal, body.world)
    else if s.While? then Exec(cx, s, body.world, fuel)
    else if s.For? then ExecFor(cx, s, EvalAll(cx, s.update, body.world), fuel)
    else
      var r := Eval(cx, s.condition, body.world);
      if cx.ops.Truthy(r.value) then Exec(cx, s, r.world, fuel) else Done(Normal, r.world)
  }

  // ----- Actions, record items and phases -----

  function ExecAction(cx: Context, action: Option<Action>, w: World, fuel: nat): Result {
    if action.None? then Done(Normal, Emit(PrintedRecord, w)) else ExecAll(cx, action.value, w, fuel)
  }

  /** The flag of a range stays up unless the right pattern holds once the action has run. */
  function EndRange(cx: Context, right: Expr, state: string, action: Result): Result {
    if action.OutOfFuel? || !action.outcome.Normal? then action else
    var r := Eval(cx, right, action.world);
    Done(Normal, Write(cx, state, FromBool(!cx.ops.Truthy(r.value)), r.world))
  }

  function ExecItem(cx: Context, item: RecordItem, w: World, fuel: nat): Result {
    match item.pattern
    case Always => ExecAction(cx, item.action, w, fuel)
    case When(test) =>
      var r := Eval(cx, test, w);
      if cx.ops.Truthy(r.value) then ExecAction(cx, item.action, r.world, fuel) else Done(Normal, r.world)
    case Range(left, right, state) =>
      var w1 := NoteRead(state, w);
      if cx.ops.Truthy(Read(cx, state, w)) then EndRange(cx, right, state, ExecAction(cx, item.action, w1, fuel)) else
      var r := Eval(cx, left, w1);
      if cx.ops.Truthy(r.value) then EndRange(cx, right, state, ExecAction(cx, item.action, r.world, fuel))
      else Done(Normal, r.world)
  }

  /** What one call of a generated function runs. */
  datatype Phase = Actions(actions: seq<Action>) | Items(items: seq<RecordItem>)

  function ExecActions(cx: Context, actions: seq<Action>, w: World, fuel: nat): Result {
    if actions == [] then Done(Normal, w) else
    var r := ExecAll(cx, actions[0], w, fuel);
    if r.Done? && r.outcome.Normal? then ExecActions(cx, actions[1..], r.world, fuel) else r
  }

  function ExecItems(cx: Context, items: seq<RecordItem>, w: World, fuel: nat): Result {
    if items == [] then Done(Normal, w) else
    var r := ExecItem(cx, items[0], w, fuel);
    if r.Done? && r.outcome.Normal? then ExecItems(cx, items[1..], r.world, fuel) else r
  }

  function ExecPhase(cx: Context, phase: Phase, w: World, fuel: nat): Result {
    match phase
    case Actions(actions) => ExecActions(cx, actions, w, fuel)
    case Items(items) => ExecItems(cx, items, w, fuel)
  }
}

/** The emitted code as a function of the tree: what the lowering methods append, which
    temporaries and labels they take, and which stack cells they allocate. */
module LoweringSpec {
  import opened Options
  import opened Syntax
  import opened Meaning
  import opened Machine

  datatype Emitter = Emitter(
    code: seq<Instr>,
    cells: seq<Temp>,
    entry: seq<Instr>,
    nextTemp: Temp,
    nextLabel: Label,
    slots: map<string, Temp>)
  {
    function Put(i: Instr): (r: Emitter)
      ensures r.nextTemp == nextTemp && r.nextLabel == nextLabel
    {
      this.(code := code + [i])
    }

    function Temps(n: nat): Emitter {
      this.(nextTemp := nextTemp + n)
    }

    function Labels(n: nat): Emitter {
      this.(nextLabel := nextLabel + n)
    }
  }

  datatype Lowered = Lowered(em: Emitter, operand: Operand)

  datatype Addressed = Addressed(em: Emitter, address: Address)

  /** `em` after more emission: nothing already emitted, counted or allocated is taken back. */
  ghost predicate Extends(em: Emitter, later: Emitter) {
    && em.code <= later.code
    && em.nextTemp <= later.nextTemp
    && em.nextLabel <= later.nextLabel
    && em.slots.Keys <= later.slots.Keys
    && forall x :: x in em.slots ==> later.slots[x] == em.slots[x]
  }

  function VariableAddress(locals: set<string>, x: string, em: Emitter): (r: Addressed)
    ensures Extends(em, r.em)
  {
    if x in em.slots then Addressed(em, Cell(em.slots[x]))
    else if x in locals then
      var t := em.nextTemp;
      Addressed(
        em.(nextTemp := t + 1, cells := em.cells + [t], entry := em.entry + [Store(Literal(ZERO), Cell(t))],
            slots := em.slots[x := t]),
        Cell(t))
    else
      Addressed(em.Temps(1).Put(SlotPointer(em.nextTemp, x)), Slot(em.nextTemp))
  }

  /** One more instruction, which defines the temporary that is the result. */
  function Last(i: Instr, em: Emitter): (r: Lowered)
    ensures Extends(em, r.em) && r.em.nextTemp == em.nextTemp + 1 && r.operand == Use(em.nextTemp)
  {
    Lowered(em.Temps(1).Put(i), Use(em.nextTemp))
  }

  /** A variable loaded, stepped by one and stored back. */
  function StepBy(a: Addressed, up: bool, returnOld: bool): (r: Lowered)
    ensures Extends(a.em, r.em) && r.em.nextTemp == a.em.nextTemp + 2
  {
    var t := a.em.nextTemp;
    Lowered(
      a.em.Temps(2).Put(Load(t, a.address))
        .Put(Binary(t + 1, if up then FAdd else FSub, Use(t), Literal(ONE))).Put(Store(Use(t + 1), a.address)),
      Use(if returnOld then t else t + 1))
  }

  /** Quotient, truncation, product and difference. */
  function Remainder(em: Emitter, q: Temp, u: Temp, p: Temp, d: Temp, left: Operand, right: Operand): (r: Emitter)
    ensures Extends(em, r)
  {
    em.Put(Binary(q, FDiv, left, right)).Put(CallTrunc(u, Use(q))).Put(Binary(p, FMul, Use(u), right))
      .Put(Binary(d, FSub, left, Use(p)))
  }

  /** A compound assignment takes the temporary of its result first. */
  function Combine(op: ArithOp, current: Operand, update: Operand, em: Emitter): (r: Lowered)
    ensures Extends(em, r.em)
  {
    var t := em.nextTemp;
    match op
    case Add => Lowered(em.Temps(1).Put(Binary(t, FAdd, current, update)), Use(t))
    case Sub => Lowered(em.Temps(1).Put(Binary(t, FSub, current, update)), Use(t))
    case Mul => Lowered(em.Temps(1).Put(Binary(t, FMul, current, update)), Use(t))
    case Div => Lowered(em.Temps(1).Put(Binary(t, FDiv, current, update)), Use(t))
    case Mod =>
      Lowered(Remainder(em.Temps(4), t + 1, t + 2, t + 3, t, current, update), Use(t))
    case Pow => Lowered(em.Temps(1).Put(CallPow(t, current, update)), Use(t))
  }

  /** A binary expression takes it last. */
  function LowerArith(op: ArithOp, left: Operand, right: Operand, em: Emitter): (r: Lowered)
    ensures Extends(em, r.em)
  {
    var t := em.nextTemp;
    match op
    case Add => Lowered(em.Temps(1).Put(Binary(t, FAdd, left, right)), Use(t))
    case Sub => Lowered(em.Temps(1).Put(Binary(t, FSub, left, right)), Use(t))
    case Mul => Lowered(em.Temps(1).Put(Binary(t, FMul, left, right)), Use(t))
    case Div => Lowered(em.Temps(1).Put(Binary(t, FDiv, left, right)), Use(t))
    case Mod =>
      Lowered(Remainder(em.Temps(4), t, t + 1, t + 2, t + 3, left, right), Use(t + 3))
    case Pow => Lowered(em.Temps(1).Put(CallPow(t, left, right)), Use(t))
  }

  predicate IsLogical(e: Expr) {
    e.Compare? || e.And? || e.Or?
  }

  /** `br i1 condition, label %first, label %second` followed by the first block. */
  function Fork(condition: Operand, first: Label, second: Label, em: Emitter): (r: Emitter)
    ensures Extends(em, r)
    ensures r.nextTemp == em.nextTemp && r.nextLabel == em.nextLabel
  {
    em.Put(CondBr(condition, first, second)).Put(Mark(first))
  }

  /** `br i1 condition, label %first, label %second` followed by the second block. */
  function Split(condition: Operand, first: Label, second: Label, em: Emitter): (r: Emitter)
    ensures Extends(em, r)
  {
    em.Put(CondBr(condition, first, second)).Put(Mark(second))
  }

  /** `br label %target` followed by the block `next`. */
  function Close(target: Label, next: Label, em: Emitter): (r: Emitter)
    ensures Extends(em, r)
    ensures r.nextTemp == em.nextTemp && r.nextLabel == em.nextLabel
  {
    em.Put(Br(target)).Put(Mark(next))
  }

  function Number(locals: set<string>, e: Expr, em: Emitter): (r: Lowered)
    ensures Extends(em, r.em)
    decreases e, if IsLogical(e) then 1 else 0, 1
  {
    match e
    case Number(v) => Lowered(em, Literal(v))
    case Name(x) =>
      var a := VariableAddress(locals, x, em);
      Last(Load(a.em.nextTemp, a.address), a.em)
    case Builtin(which) => Last(CallBuiltin(em.nextTemp, which), em)
    case Assign(x, aop, right) =>
      var a := VariableAddress(locals, x, em);
      var r := Number(locals, right, Last(Load(a.em.nextTemp, a.address), a.em).em);
      var v := if aop.Plain? then r else Combine(aop.op, Use(a.em.nextTemp), r.operand, r.em);
      Lowered(v.em.Put(Store(v.operand, a.address)), v.operand)
    case Sign(UPlus, operand) => Number(locals, operand, em)
    case Sign(UMinus, operand) =>
      var r := Number(locals, operand, em);
      Last(Binary(r.em.nextTemp, FSub, Literal(ZERO), r.operand), r.em)
    case Sign(Not, operand) =>
      var r := Condition(locals, operand, em);
      Last(Select(r.em.nextTemp, r.operand, Literal(ZERO), Literal(ONE)), r.em)
    case Increment(x, up, returnOld) =>
      var a := VariableAddress(locals, x, em);
      StepBy(a, up, returnOld)
    case Arith(op, left, right) =>
      var l := Number(locals, left, em);
      var r := Number(locals, right, l.em);
      LowerArith(op, l.operand, r.operand, r.em)
    case Conditional(c, t, f) =>
      var test := Condition(locals, c, em);
      if BranchesToJoin(e) then
        var n := test.em.nextLabel;
        var tv := Number(locals, t, Fork(test.operand, n, n + 1, test.em.Labels(3)));
        var fv := Number(locals, f, Close(n + 2, n + 1, tv.em));
        Join(tv.operand, n, fv.operand, n + 1, n + 2, fv.em)
      else
        var tv := Number(locals, t, test.em);
        var fv := Number(locals, f, tv.em);
        Choose(test.operand, tv.operand, fv.operand, fv.em)
    case Compare(_, _, _) => NumberFromBool(Condition(locals, e, em))
    case And(_, _) => NumberFromBool(Condition(locals, e, em))
    case Or(_, _) => NumberFromBool(Condition(locals, e, em))
  }

  function NumberFromBool(c: Lowered): (r: Lowered)
    ensures Extends(c.em, r.em)
  {
    Last(BoolToDouble(c.em.nextTemp, c.operand), c.em)
  }

  /** Both branches closed into the block `end`, which picks by the block control came from. */
  function Join(a: Operand, fromA: Label, b: Operand, fromB: Label, end: Label, em: Emitter): (r: Lowered)
    ensures Extends(em, r.em)
  {
    var em1 := Close(end, end, em);
    Lowered(em1.Temps(1).Put(Phi(em1.nextTemp, a, fromA, b, fromB)), Use(em1.nextTemp))
  }

  function Choose(c: Operand, a: Operand, b: Operand, em: Emitter): (r: Lowered)
    ensures Extends(em, r.em)
  {
    Last(Select(em.nextTemp, c, a, b), em)
  }

  /** The start of the right side of `&&`. Labels: n right side, n + 1 its value, n + 2 false, n + 3 end. */
  function BeginAnd(l: Lowered): (r: Emitter)
    ensures Extends(l.em, r) && r.nextTemp == l.em.nextTemp + 1
  {
    var n := l.em.nextLabel;
    Fork(l.operand, n, n + 2, l.em.Temps(1).Labels(4))
  }

  function EndAnd(l: Lowered, right: Lowered): (r: Lowered)
    ensures Extends(right.em, r.em) && r.em.nextTemp == right.em.nextTemp && r.operand == Use(l.em.nextTemp)
  {
    var n, t := l.em.nextLabel, l.em.nextTemp;
    var joined := Close(n + 3, n + 3, Close(n + 3, n + 2, Close(n + 1, n + 1, right.em)));
    Lowered(joined.Put(Phi(t, BoolLiteral(false), n + 2, right.operand, n + 1)), Use(t))
  }

  /** The start of the right side of `||`. Labels: n true, n + 1 right side, n + 2 its value, n + 3 end. */
  function BeginOr(l: Lowered): (r: Emitter)
    ensures Extends(l.em, r) && r.nextTemp == l.em.nextTemp + 1
  {
    var n := l.em.nextLabel;
    Close(n + 3, n + 1, Fork(l.operand, n, n + 1, l.em.Temps(1).Labels(4)))
  }

  function EndOr(l: Lowered, right: Lowered): (r: Lowered)
    ensures Extends(right.em, r.em) && r.em.nextTemp == right.em.nextTemp && r.operand == Use(l.em.nextTemp)
  {
    var n, t := l.em.nextLabel, l.em.nextTemp;
    var joined := Close(n + 3, n + 3, Close(n + 2, n + 2, right.em));
    Lowered(joined.Put(Phi(t, BoolLiteral(true), n, right.operand, n + 2)), Use(t))
  }

  function Condition(locals: set<string>, e: Expr, em: Emitter): (r: Lowered)
    ensures Extends(em, r.em)
    decreases e, if IsLogical(e) then 0 else 1, 1
  {
    match e
    case Compare(op, left, right) =>
      if ComparesNumbers(e) then
        var l := Number(locals, left, em);
        var r := Number(locals, right, l.em);
        Last(FCmp(r.em.nextTemp, op, l.operand, r.operand), r.em)
      else ComparedTexts(locals, e, em)
    case And(left, right) =>
      var l := Condition(locals, left, em);
      EndAnd(l, Condition(locals, right, BeginAnd(l)))
    case Or(left, right) =>
      var l := Condition(locals, left, em);
      EndOr(l, Condition(locals, right, BeginOr(l)))
    case Conditional(_, _, _) => ConditionalCondition(locals, e, em)
    case _ =>
      var r := Number(locals, e, em);
      Last(FCmp(r.em.nextTemp, NotEqual, r.operand, Literal(ZERO)), r.em)
  }

  /** A ternary as a condition, joined or selected. */
  function ConditionalCondition(locals: set<string>, e: Expr, em: Emitter): (r: Lowered)
    requires e.Conditional?
    ensures Extends(em, r.em)
    decreases e, 1, 0
  {
    var test := Condition(locals, e.test, em);
    if BranchesToJoin(e) then
      var n := test.em.nextLabel;
      var tv := Condition(locals, e.ifTrue, Fork(test.operand, n, n + 1, test.em.Labels(3)));
      var fv := Condition(locals, e.ifFalse, Close(n + 2, n + 1, tv.em));
      Join(tv.operand, n, fv.operand, n + 1, n + 2, fv.em)
    else
      var tv := Condition(locals, e.ifTrue, test.em);
      var fv := Condition(locals, e.ifFalse, tv.em);
      Choose(test.operand, tv.operand, fv.operand, fv.em)
  }

  /** A comparison of operands not known to be numbers: each is lowered as text and as number. */
  function ComparedTexts(locals: set<string>, e: Expr, em: Emitter): (r: Lowered)
    requires e.Compare?
    ensures Extends(em, r.em)
    decreases e, 0, 0
  {
    var lt := CapturedText(locals, e.left, em);
    var l := Number(locals, e.left, lt.em);
    var rt := CapturedText(locals, e.right, l.em);
    var r := Number(locals, e.right, rt.em);
    Last(CompareValues(r.em.nextTemp, lt.operand, l.operand, rt.operand, r.operand, e.cop), r.em)
  }

  /** The operand as text: formatted from its number, or joined from formatted branches. */
  function TextOf(locals: set<string>, e: Expr, em: Emitter): (r: Lowered)
    ensures Extends(em, r.em)
    decreases e, 2, 0
  {
    match e
    case Conditional(c, t, f) =>
      var test := Condition(locals, c, em);
      var n := test.em.nextLabel;
      var tv := CapturedText(locals, t, Fork(test.operand, n, n + 1, test.em.Labels(3)));
      var fv := CapturedText(locals, f, Close(n + 2, n + 1, tv.em));
      Join(tv.operand, n, fv.operand, n + 1, n + 2, fv.em)
    case _ =>
      var r := Number(locals, e, em);
      Last(FormatNumber(r.em.nextTemp, r.operand), r.em)
  }

  function CapturedText(locals: set<string>, e: Expr, em: Emitter): (r: Lowered)
    ensures Extends(em, r.em)
    decreases e, 3, 0
  {
    var r := TextOf(locals, e, em);
    Last(Capture(r.em.nextTemp, r.operand), r.em)
  }

  /** Where `break`, `continue` and `next` go. */
  datatype Targets = Targets(onBreak: Option<Label>, onContinue: Option<Label>, exit: Label)

  function Each(locals: set<string>, es: seq<Expr>, em: Emitter): (r: Emitter)
    ensures Extends(em, r)
  {
    if es == [] then em else Each(locals, es[1..], Number(locals, es[0], em).em)
  }

  function PrintArguments(locals: set<string>, es: seq<Expr>, index: nat, em: Emitter): (r: Emitter)
    requires index <= |es|
    ensures Extends(em, r)
    decreases |es| - index
  {
    if index == |es| then em.Put(PrintEnd) else
    var em1 := if index > 0 then em.Put(PrintSeparator) else em;
    var v := Number(locals, es[index], em1);
    PrintArguments(locals, es, index + 1, v.em.Put(PrintNumber(v.operand)))
  }

  function DefaultPrint(em: Emitter): (r: Emitter)
    ensures Extends(em, r)
  {
    em.Temps(1).Put(LoadRecord(em.nextTemp)).Put(PrintText(Use(em.nextTemp)))
  }

  /** The emitted statement; `None` is the lowering's error for a stray break or continue. */
  function Statement(locals: set<string>, s: Stmt, to: Targets, em: Emitter): (r: Option<Emitter>)
    ensures r.Some? ==> Extends(em, r.value)
    decreases s, 1
  {
    match s
    case AssignStmt(x, aop, value) => Some(Assignment(locals, x, aop, value, em))
    case ExprStmt(e) => Some(Number(locals, e, em).em)
    case Print(es) => Some(if es == [] then DefaultPrint(em) else PrintArguments(locals, es, 0, em))
    case Block(ss) => Statements(locals, ss, to, em)
    case If(_, _, _) => IfStatement(locals, s, to, em)
    case While(_, _) => WhileStatement(locals, s, to, em)
    case DoWhile(_, _) => DoStatement(locals, s, to, em)
    case For(_, _, _, _) => ForStatement(locals, s, to, em)
    case BreakStmt =>
      var l :- to.onBreak;
      Some(em.Put(Br(l)))
    case ContinueStmt =>
      var l :- to.onContinue;
      Some(em.Put(Br(l)))
    case NextStmt => Some(em.Put(Br(to.exit)))
    case NextFileStmt => Some(em.Put(CallNextFile).Put(Br(to.exit)))
    case ExitStmt(status) => Some(Exit(locals, status, em).Put(Br(to.exit)))
  }

  function Assignment(locals: set<string>, x: string, aop: AssignOp, value: Expr, em: Emitter): (r: Emitter)
    ensures Extends(em, r)
  {
    var a := VariableAddress(locals, x, em);
    var r := Number(locals, value, a.em);
    if aop.Plain? then r.em.Put(Store(r.operand, a.address)) else
    var current := Last(Load(r.em.nextTemp, a.address), r.em);
    var v := Combine(aop.op, current.operand, r.operand, current.em);
    v.em.Put(Store(v.operand, a.address))
  }

  function Exit(locals: set<string>, status: Option<Expr>, em: Emitter): (r: Emitter)
    ensures Extends(em, r)
  {
    if status.None? then em.Put(RequestExit(IntLiteral(0))) else
    var r := Number(locals, status.value, em);
    var i := Last(DoubleToInt(r.em.nextTemp, r.operand), r.em);
    i.em.Put(RequestExit(i.operand))
  }

  /** Labels: n then, n + 1 the else branch if there is one, and the end. */
  function IfStatement(locals: set<string>, s: Stmt, to: Targets, em: Emitter): (r: Option<Emitter>)
    requires s.If?
    ensures r.Some? ==> Extends(em, r.value)
    decreases s, 0
  {
    var n := em.nextLabel;
    var end := if s.elseBranch.Some? then n + 2 else n + 1;
    var test := Condition(locals, s.condition, em.Labels(if s.elseBranch.Some? then 3 else 2));
    var em1 :- Statement(locals, s.thenBranch, to, Fork(test.operand, n, n + 1, test.em));
    if s.elseBranch.None? then Some(Close(end, end, em1)) else
    var em2 :- Statement(locals, s.elseBranch.value, to, Close(end, n + 1, em1));
    Some(Close(end, end, em2))
  }

  /** Labels: n condition, n + 1 body, n + 2 end. */
  function WhileStatement(locals: set<string>, s: Stmt, to: Targets, em: Emitter): (r: Option<Emitter>)
    requires s.While?
    ensures r.Some? ==> Extends(em, r.value)
    decreases s, 0
  {
    var n := em.nextLabel;
    var test := Condition(locals, s.condition, Close(n, n, em.Labels(3)));
    var em1 :- Statement(locals, s.body, Targets(Some(n + 2), Some(n), to.exit),
                         Fork(test.operand, n + 1, n + 2, test.em));
    Some(Close(n, n + 2, em1))
  }

  /** Labels: n body, n + 1 condition, n + 2 end. */
  function DoStatement(locals: set<string>, s: Stmt, to: Targets, em: Emitter): (r: Option<Emitter>)
    requires s.DoWhile?
    ensures r.Some? ==> Extends(em, r.value)
    decreases s, 0
  {
    var n := em.nextLabel;
    var em1 :- Statement(locals, s.body, Targets(Some(n + 2), Some(n + 1), to.exit), Close(n, n, em.Labels(3)));
    var test := Condition(locals, s.condition, Close(n + 1, n + 1, em1));
    Some(Split(test.operand, n, n + 2, test.em))
  }

  /** Labels: n condition, n + 1 body, n + 2 step, n + 3 end. */
  function ForStatement(locals: set<string>, s: Stmt, to: Targets, em: Emitter): (r: Option<Emitter>)
    requires s.For?
    ensures r.Some? ==> Extends(em, r.value)
    decreases s, 0
  {
    var em0 := Each(locals, s.init, em);
    var n := em0.nextLabel;
    var c := ForTest(locals, s.test, Close(n, n, em0.Labels(4)));
    var em1 :- Statement(locals, s.body, Targets(Some(n + 3), Some(n + 2), to.exit),
                         Fork(c.operand, n + 1, n + 3, c.em));
    Some(Close(n, n + 3, Each(locals, s.update, Close(n + 2, n + 2, em1))))
  }

  function ForTest(locals: set<string>, test: Option<Expr>, em: Emitter): (r: Lowered)
    ensures Extends(em, r.em)
  {
    if test.None? then Lowered(em, BoolLiteral(true)) else Condition(locals, test.value, em)
  }

  function Statements(locals: set<string>, ss: seq<Stmt>, to: Targets, em: Emitter): (r: Option<Emitter>)
    ensures r.Some? ==> Extends(em, r.value)
    decreases ss, 0
  {
    if ss == [] then Some(em) else
    var em1 :- Statement(locals, ss[0], to, em);
    Statements(locals, ss[1..], to, em1)
  }

  predicate EndsAction(s: Stmt) {
    s.NextStmt? || s.NextFileStmt? || s.ExitStmt?
  }

  /** The statements of an action up to the first one that always leaves the phase; the rest
      is never emitted. */
  function Emitted(ss: seq<Stmt>): seq<Stmt> {
    if ss == [] then [] else if EndsAction(ss[0]) then [ss[0]] else [ss[0]] + Emitted(ss[1..])
  }

  function LowerAction(locals: set<string>, action: Action, to: Targets, em: Emitter): (r: Option<Emitter>)
    ensures r.Some? ==> Extends(em, r.value)
  {
    var n := em.nextLabel;
    var kept := Emitted(action);
    var em1 :- Statements(locals, kept, to, em.Labels(1));
    if kept != [] && EndsAction(kept[|kept| - 1]) then Some(em1.Put(Mark(n))) else Some(Close(n, n, em1))
  }

  function ActionOrDefault(locals: set<string>, action: Option<Action>, to: Targets, em: Emitter): (r: Option<Emitter>)
    ensures r.Some? ==> Extends(em, r.value)
  {
    if action.None? then Some(DefaultPrint(em)) else LowerAction(locals, action.value, to, em)
  }

  /** The right end of a range: the flag stays up unless the pattern matches now. */
  function RangeEnd(locals: set<string>, right: Expr, flag: Address, em: Emitter): (r: Emitter)
    ensures Extends(em, r)
  {
    var c := Condition(locals, right, em);
    var keep := Last(Invert(c.em.nextTemp, c.operand), c.em);
    var number := Last(BoolToDouble(keep.em.nextTemp, keep.operand), keep.em);
    number.em.Put(Store(number.operand, flag))
  }

  function LowerItem(locals: set<string>, item: RecordItem, to: Targets, em: Emitter): (r: Option<Emitter>)
    ensures r.Some? ==> Extends(em, r.value)
  {
    match item.pattern
    case Always => ActionOrDefault(locals, item.action, to, em)
    case When(_) => LowerWhen(locals, item, to, em)
    case Range(_, _, _) => LowerRange(locals, item, to, em)
  }

  function LowerWhen(locals: set<string>, item: RecordItem, to: Targets, em: Emitter): (r: Option<Emitter>)
    requires item.pattern.When?
    ensures r.Some? ==> Extends(em, r.value)
  {
    var c := Condition(locals, item.pattern.test, em);
    var n := c.em.nextLabel;
    var em1 :- ActionOrDefault(locals, item.action, to, Fork(c.operand, n, n + 1, c.em.Labels(2)));
    Some(Close(n + 1, n + 1, em1))
  }

  /** The flag of a range, loaded and tested. */
  function RangeFlag(flag: Addressed): (r: Lowered)
    ensures Extends(flag.em, r.em)
  {
    var value := Last(Load(flag.em.nextTemp, flag.address), flag.em);
    Last(FCmp(value.em.nextTemp, NotEqual, value.operand, Literal(ZERO)), value.em)
  }

  /** Labels: n active, n + 1 inactive, n + 2 end, and one more for a record that starts the range. */
  function LowerRange(locals: set<string>, item: RecordItem, to: Targets, em: Emitter): (r: Option<Emitter>)
    requires item.pattern.Range?
    ensures r.Some? ==> Extends(em, r.value)
  {
    var flag := VariableAddress(locals, item.pattern.state, em);
    var test := RangeFlag(flag);
    var n := test.em.nextLabel;
    var em1 :- ActionOrDefault(locals, item.action, to, Fork(test.operand, n, n + 1, test.em.Labels(3)));
    var em2 := Close(n + 2, n + 1, RangeEnd(locals, item.pattern.right, flag.address, em1));
    LowerRangeStart(locals, item, to, flag.address, n + 2, em2)
  }

  /** The inactive block of a range: the left pattern, and the action if it matches. */
  function LowerRangeStart(locals: set<string>, item: RecordItem, to: Targets, flag: Address, end: Label,
                           em: Emitter): (r: Option<Emitter>)
    requires item.pattern.Range?
    ensures r.Some? ==> Extends(em, r.value)
  {
    var c := Condition(locals, item.pattern.left, em);
    var m := c.em.nextLabel;
    var em1 :- ActionOrDefault(locals, item.action, to, Fork(c.operand, m, end, c.em.Labels(1)));
    Some(Close(end, end, RangeEnd(locals, item.pattern.right, flag, em1)))
  }

  function LowerActions(locals: set<string>, actions: seq<Action>, to: Targets, em: Emitter): (r: Option<Emitter>)
    ensures r.Some? ==> Extends(em, r.value)
  {
    if actions == [] then Some(em) else
    var em1 :- LowerAction(locals, actions[0], to, em);
    LowerActions(locals, actions[1..], to, em1)
  }

  function LowerItems(locals: set<string>, items: seq<RecordItem>, to: Targets, em: Emitter): (r: Option<Emitter>)
    ensures r.Some? ==> Extends(em, r.value)
  {
    if items == [] then Some(em) else
    var em1 :- LowerItem(locals, items[0], to, em);
    LowerItems(locals, items[1..], to, em1)
  }

  /** A lowered phase function: its stack cells, the stores that clear them, and its body. */
  datatype PhaseFunction = PhaseFunction(cells: seq<Temp>, entry: seq<Instr>, body: seq<Instr>)

  const EXIT: Label := 0

  const START := Emitter([], [], [], 0, 1, map[])

  const AT_START := Targets(None, None, EXIT)

  function LowerPhase(locals: set<string>, phase: Phase): Option<Emitter> {
    match phase
    case Actions(actions) => LowerActions(locals, actions, AT_START, START)
    case Items(items) => LowerItems(locals, items, AT_START, START)
  }

  function Render(em: Emitter): PhaseFunction {
    PhaseFunction(em.cells, em.entry, em.code + [Br(EXIT), Mark(EXIT), Ret])
  }
}

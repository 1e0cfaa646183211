/** When the `phi` of a ternary works: it names the labels its branches start with, so it is
    defined exactly when the branch taken opened no block of its own. */
module Joining {
  import opened Options
  import opened Syntax
  import opened Meaning
  import opened Machine
  import opened ExprSimulation
  import LS = LoweringSpec

  // ----- The block a position lies in -----

  /** The label of the last block opened; the entry block has none. */
  function Block(code: seq<Instr>): Option<Label> {
    if code == [] then None
    else if code[|code| - 1].Mark? then Some(code[|code| - 1].name)
    else Block(code[..|code| - 1])
  }

  lemma BlockPut(em: Emitter, i: Instr)
    ensures Block(em.Put(i).code) == if i.Mark? then Some(i.name) else Block(em.code)
  {
    assert em.Put(i).code[..|em.code|] == em.code;
  }

  lemma {:induction false} FindFinds(code: seq<Instr>, l: Label)
    ensures Find(code, l).Some? ==> Find(code, l).value < |code| && code[Find(code, l).value] == Mark(l)
  {
    if code != [] { FindFinds(code[1..], l); }
  }

  /** The machine remembers the label of the block it is in. */
  ghost predicate InBlock(code: seq<Instr>, c: Config) {
    c.pc <= |code| && c.current == Block(code[..c.pc])
  }

  lemma StepKeepsBlock(h: Host, code: seq<Instr>, c: Config)
    requires InBlock(code, c) && Step(h, code, c).Some?
    ensures InBlock(code, Step(h, code, c).value)
  {
    hide Find;
    var i, c' := code[c.pc], Step(h, code, c).value;
    assert code[..c.pc + 1][..c.pc] == code[..c.pc];
    if i.Br? || i.CondBr? {
      var l := c'.current.value;
      FindFinds(code, l);
      assert c'.pc == Find(code, l).value + 1;
      assert code[..c'.pc][|code[..c'.pc]| - 1] == Mark(l);
    }
  }

  lemma {:induction false} RunKeepsBlock(h: Host, code: seq<Instr>, c: Config, n: nat)
    requires InBlock(code, c) && Run(h, code, c, n).Some?
    ensures InBlock(code, Run(h, code, c, n).value)
    decreases n
  {
    hide Step, InBlock;
    if n > 0 {
      StepKeepsBlock(h, code, c);
      RunKeepsBlock(h, code, Step(h, code, c).value, n - 1);
    }
  }

  // ----- The block emitted code ends in -----

  /** The code from `em` to `later` ends in a block of its own, or in the block it began in. */
  ghost predicate Blocks(em: Emitter, later: Emitter, forks: bool) {
    && em.nextLabel <= later.nextLabel
    && if forks then Block(later.code).Some? && em.nextLabel <= Block(later.code).value < later.nextLabel
       else Block(later.code) == Block(em.code)
  }

  lemma BlocksLast(i: Instr, em: Emitter)
    requires !i.Mark?
    ensures Blocks(em, LS.Last(i, em).em, false)
  {
    BlockPut(em.Temps(1), i);
  }

  lemma BlocksPut(i: Instr, em: Emitter)
    requires !i.Mark?
    ensures Blocks(em, em.Put(i), false)
  {
    BlockPut(em, i);
  }

  lemma BlocksAddress(locals: set<string>, x: string, em: Emitter)
    ensures Blocks(em, LS.VariableAddress(locals, x, em).em, false)
  {
    BlockPut(em.Temps(1), SlotPointer(em.nextTemp, x));
  }

  lemma BlocksRemainder(em: Emitter, q: Temp, u: Temp, p: Temp, d: Temp, a: Operand, b: Operand)
    ensures Blocks(em, LS.Remainder(em.Temps(4), q, u, p, d, a, b), false)
  {
    var em1 := em.Temps(4).Put(Binary(q, FDiv, a, b));
    BlockPut(em.Temps(4), Binary(q, FDiv, a, b));
    BlockPut(em1, CallTrunc(u, Use(q)));
    BlockPut(em1.Put(CallTrunc(u, Use(q))), Binary(p, FMul, Use(u), b));
    BlockPut(em1.Put(CallTrunc(u, Use(q))).Put(Binary(p, FMul, Use(u), b)), Binary(d, FSub, a, Use(p)));
  }

  lemma BlocksArith(op: ArithOp, a: Operand, b: Operand, em: Emitter)
    ensures Blocks(em, LS.LowerArith(op, a, b, em).em, false) && Blocks(em, LS.Combine(op, a, b, em).em, false)
  {
    var t := em.nextTemp;
    if op.Mod? {
      hide LS.Remainder, Block;
      BlocksRemainder(em, t, t + 1, t + 2, t + 3, a, b);
      BlocksRemainder(em, t + 1, t + 2, t + 3, t, a, b);
    } else {
      hide LS.Remainder, Block;
      BlockPut(em.Temps(1), CallPow(t, a, b));
      BlockPut(em.Temps(1), Binary(t, FloatOpOf(op), a, b));
    }
  }

  lemma BlocksStep(a: LS.Addressed, up: bool, returnOld: bool)
    ensures Blocks(a.em, LS.StepBy(a, up, returnOld).em, false)
  {
    var t := a.em.nextTemp;
    var em1 := a.em.Temps(2).Put(Load(t, a.address));
    var i := Binary(t + 1, if up then FAdd else FSub, Use(t), Literal(ONE));
    BlockPut(a.em.Temps(2), Load(t, a.address));
    BlockPut(em1, i);
    BlockPut(em1.Put(i), Store(Use(t + 1), a.address));
  }

  /** The end of `&&`, `||` and a joined ternary is the block that holds the `phi`. */
  lemma BlocksAnd(l: LS.Lowered, right: LS.Lowered)
    requires LS.BeginAnd(l).nextLabel <= right.em.nextLabel
    ensures Blocks(l.em, LS.EndAnd(l, right).em, true)
  {
    var n := l.em.nextLabel;
    var last := LS.Close(n + 3, n + 2, LS.Close(n + 1, n + 1, right.em)).Put(Br(n + 3));
    var phi := Phi(l.em.nextTemp, BoolLiteral(false), n + 2, right.operand, n + 1);
    BlockPut(last, Mark(n + 3));
    BlockPut(last.Put(Mark(n + 3)), phi);
  }

  lemma BlocksOr(l: LS.Lowered, right: LS.Lowered)
    requires LS.BeginOr(l).nextLabel <= right.em.nextLabel
    ensures Blocks(l.em, LS.EndOr(l, right).em, true)
  {
    var n := l.em.nextLabel;
    var last := LS.Close(n + 2, n + 2, right.em).Put(Br(n + 3));
    BlockPut(last, Mark(n + 3));
    BlockPut(last.Put(Mark(n + 3)), Phi(l.em.nextTemp, BoolLiteral(true), n, right.operand, n + 2));
  }

  lemma BlocksJoin(em: Emitter, a: Operand, fromA: Label, b: Operand, fromB: Label, end: Label, later: Emitter)
    requires em.nextLabel <= end < later.nextLabel
    ensures Blocks(em, LS.Join(a, fromA, b, fromB, end, later).em, true)
  {
    var em1 := LS.Close(end, end, later);
    BlockPut(later.Put(Br(end)), Mark(end));
    BlockPut(em1.Temps(1), Phi(em1.nextTemp, a, fromA, b, fromB));
  }

  lemma {:induction false} BlocksNumber(locals: set<string>, e: Expr, em: Emitter)
    ensures Blocks(em, LS.Number(locals, e, em).em, NumberForks(e))
    decreases e, if LS.IsLogical(e) then 1 else 0, 1
  {
    hide LS.VariableAddress, LS.LowerArith, LS.Combine, LS.StepBy, LS.Join, LS.Fork, LS.Close, LS.Last, LS.Condition;
    hide Block;
    match e
    case Number(_) =>
    case Name(x) =>
      var a := LS.VariableAddress(locals, x, em);
      BlocksAddress(locals, x, em);
      BlocksLast(Load(a.em.nextTemp, a.address), a.em);
    case Builtin(which) => BlocksLast(CallBuiltin(em.nextTemp, which), em);
    case Assign(_, _, _) => BlocksAssign(locals, e, em);
    case Sign(UPlus, operand) => BlocksNumber(locals, operand, em);
    case Sign(UMinus, operand) =>
      var r := LS.Number(locals, operand, em);
      BlocksNumber(locals, operand, em);
      BlocksLast(Binary(r.em.nextTemp, FSub, Literal(ZERO), r.operand), r.em);
    case Sign(Not, operand) =>
      var r := LS.Condition(locals, operand, em);
      BlocksCondition(locals, operand, em);
      BlocksLast(Select(r.em.nextTemp, r.operand, Literal(ZERO), Literal(ONE)), r.em);
    case Increment(x, up, returnOld) =>
      BlocksAddress(locals, x, em);
      BlocksStep(LS.VariableAddress(locals, x, em), up, returnOld);
    case Arith(op, left, right) =>
      var a := LS.Number(locals, left, em);
      var b := LS.Number(locals, right, a.em);
      BlocksNumber(locals, left, em);
      BlocksNumber(locals, right, a.em);
      BlocksArith(op, a.operand, b.operand, b.em);
    case Conditional(_, _, _) =>
      TernaryForks(e);
      BlocksTernary(AsNumber, locals, e, em);
    case Compare(_, _, _) => BlocksFromBool(locals, e, em);
    case And(_, _) => BlocksFromBool(locals, e, em);
    case Or(_, _) => BlocksFromBool(locals, e, em);
  }

  lemma {:induction false} BlocksAssign(locals: set<string>, e: Expr, em: Emitter)
    requires e.Assign?
    ensures Blocks(em, LS.Number(locals, e, em).em, NumberForks(e.right))
    decreases e, 0, 0
  {
    hide LS.VariableAddress, LS.Combine, LS.Last, LS.Condition, Block, NumberForks;
    var a := LS.VariableAddress(locals, e.target, em);
    var loaded := LS.Last(Load(a.em.nextTemp, a.address), a.em);
    var r := LS.Number(locals, e.right, loaded.em);
    var v := if e.aop.Plain? then r else LS.Combine(e.aop.op, Use(a.em.nextTemp), r.operand, r.em);
    BlocksAddress(locals, e.target, em);
    BlocksLast(Load(a.em.nextTemp, a.address), a.em);
    BlocksNumber(locals, e.right, loaded.em);
    if e.aop.Compound? { BlocksArith(e.aop.op, Use(a.em.nextTemp), r.operand, r.em); }
    BlocksPut(Store(v.operand, a.address), v.em);
  }

  lemma {:induction false} BlocksCompare(locals: set<string>, e: Expr, em: Emitter)
    requires e.Compare?
    ensures Blocks(em, LS.Condition(locals, e, em).em, ConditionForks(e))
    decreases e, 0, 0
  {
    hide LS.Last, LS.Number, LS.CapturedText, Block, NumberForks, TextForks, ComparesNumbers;
    var lt := if ComparesNumbers(e) then LS.Lowered(em, Literal(ZERO)) else LS.CapturedText(locals, e.left, em);
    var a := LS.Number(locals, e.left, lt.em);
    var rt := if ComparesNumbers(e) then a else LS.CapturedText(locals, e.right, a.em);
    var b := LS.Number(locals, e.right, rt.em);
    BlocksNumber(locals, e.left, lt.em);
    BlocksNumber(locals, e.right, rt.em);
    if ComparesNumbers(e) {
      BlocksLast(FCmp(b.em.nextTemp, e.cop, a.operand, b.operand), b.em);
    } else {
      BlocksCaptured(locals, e.left, em);
      BlocksCaptured(locals, e.right, a.em);
      BlocksLast(CompareValues(b.em.nextTemp, lt.operand, a.operand, rt.operand, b.operand, e.cop), b.em);
    }
  }

  lemma TernaryForks(e: Expr)
    requires e.Conditional?
    ensures NumberForks(e) <==>
      BranchesToJoin(e) || ConditionForks(e.test) || NumberForks(e.ifTrue) || NumberForks(e.ifFalse)
    ensures ConditionForks(e) <==>
      BranchesToJoin(e) || ConditionForks(e.test) || ConditionForks(e.ifTrue) || ConditionForks(e.ifFalse)
  {
    hide BranchesToJoin;
  }

  lemma {:induction false} BlocksTernary(form: Form, locals: set<string>, e: Expr, em: Emitter)
    requires e.Conditional?
    ensures
      var forks := ConditionForks(e.test) || ForksAs(form, e.ifTrue) || ForksAs(form, e.ifFalse);
      Blocks(em, TernaryAs(form, locals, e, em).em, JoinedAs(form, e) || forks)
    decreases e, 0, 0
  {
    hide LS.Fork, LS.Close, LS.Join, LS.Last, LS.Condition, Block, ConditionForks, ForksAs, LowerAs, TernaryAs;
    if JoinedAs(form, e) {
      TernaryIs(form, locals, e, em);
      var j := PiecesOf(form, locals, e, em);
      var m := j.test.em.nextLabel;
      BlocksJoin(em, j.first.operand, m, j.second.operand, m + 1, m + 2, j.second.em);
    } else {
      ChoiceIs(form, locals, e, em);
      var test := LS.Condition(locals, e.test, em);
      var first := LowerAs(form, locals, e.ifTrue, test.em);
      var second := LowerAs(form, locals, e.ifFalse, first.em);
      BlocksCondition(locals, e.test, em);
      BlocksAs(form, locals, e.ifTrue, test.em);
      BlocksAs(form, locals, e.ifFalse, first.em);
      BlocksLast(Select(second.em.nextTemp, test.operand, first.operand, second.operand), second.em);
    }
  }

  lemma {:induction false} BlocksFromBool(locals: set<string>, e: Expr, em: Emitter)
    requires LS.IsLogical(e)
    ensures Blocks(em, LS.NumberFromBool(LS.Condition(locals, e, em)).em, ConditionForks(e))
    decreases e, 1, 0
  {
    var r := LS.Condition(locals, e, em);
    BlocksCondition(locals, e, em);
    BlocksLast(BoolToDouble(r.em.nextTemp, r.operand), r.em);
  }

  lemma {:induction false} BlocksCondition(locals: set<string>, e: Expr, em: Emitter)
    ensures Blocks(em, LS.Condition(locals, e, em).em, ConditionForks(e))
    decreases e, if LS.IsLogical(e) then 0 else 1, 2
  {
    hide LS.Join, LS.Fork, LS.Close, LS.Last, LS.Number, LS.BeginAnd, LS.EndAnd, LS.BeginOr, LS.EndOr, LS.CapturedText;
    hide Block, NumberForks, TextForks;
    match e
    case Compare(_, _, _) => BlocksCompare(locals, e, em);
    case And(left, right) =>
      var l := LS.Condition(locals, left, em);
      BlocksCondition(locals, left, em);
      BlocksAnd(l, LS.Condition(locals, right, LS.BeginAnd(l)));
    case Or(left, right) =>
      var l := LS.Condition(locals, left, em);
      BlocksCondition(locals, left, em);
      BlocksOr(l, LS.Condition(locals, right, LS.BeginOr(l)));
    case Conditional(_, _, _) =>
      TernaryForks(e);
      BlocksTernary(AsCondition, locals, e, em);
    case _ =>
      var r := LS.Number(locals, e, em);
      BlocksNumber(locals, e, em);
      BlocksLast(FCmp(r.em.nextTemp, NotEqual, r.operand, Literal(ZERO)), r.em);
  }

  lemma {:induction false} BlocksCaptured(locals: set<string>, e: Expr, em: Emitter)
    ensures Blocks(em, LS.CapturedText(locals, e, em).em, TextForks(e))
    decreases e, 2, 0
  {
    hide LS.Join, LS.Fork, LS.Close, LS.Last, LS.Number, LS.Condition, Block, NumberForks;
    var text := LS.TextOf(locals, e, em);
    match e {
      case Conditional(_, _, _) => BlocksTernary(AsText, locals, e, em);
      case _ =>
        var r := LS.Number(locals, e, em);
        BlocksNumber(locals, e, em);
        BlocksLast(FormatNumber(r.em.nextTemp, r.operand), r.em);
    }
    BlocksLast(Capture(text.em.nextTemp, text.operand), text.em);
  }

  lemma BlocksAs(form: Form, locals: set<string>, e: Expr, em: Emitter)
    ensures Blocks(em, LowerAs(form, locals, e, em).em, ForksAs(form, e))
    decreases e, 3, 0
  {
    match form
    case AsNumber => BlocksNumber(locals, e, em);
    case AsCondition => BlocksCondition(locals, e, em);
    case AsText => BlocksCaptured(locals, e, em);
  }

  // ----- The join -----

  /** The branch taken, run to the branch instruction that ends it and on to the `phi`. */
  lemma AtPhi(form: Form, k: Setting, start: Emitter, from: Label, branch: Expr, end: Label,
              at: Emitter, w: World, c: Config)
    returns (n: nat, c': Config)
    requires k.Good() && JoinsAs(form, branch) && start.code != [] && start.code[|start.code| - 1] == Mark(from)
    requires Within(k, LowerAs(form, k.cx.locals, branch, start).em.Put(Br(end))) && Within(k, at.Put(Mark(end)))
    requires At(k, start, w, c) && InBlock(k.code, c) && from < start.nextLabel
    ensures
      var v := Eval(k.cx, branch, w);
      && Reaches(k, c, n, c') && At(k, at.Put(Mark(end)), v.world, c')
      && Holds(LowerAs(form, k.cx.locals, branch, start).operand, c', ValueAs(form, k.cx.ops, v.value),
               LowerAs(form, k.cx.locals, branch, start).em.nextTemp)
      && c'.previous.Some?
      && (if ForksAs(form, branch) then c'.previous.value >= start.nextLabel else c'.previous == Some(from))
  {
    hide Step, Related, Run, LS.Extends, Find, Setting.Good, LowerAs, ForksAs, JoinsAs, Eval, ValueAs;
    var r := LowerAs(form, k.cx.locals, branch, start);
    Fetch(k, r.em, Br(end));
    var n1, c1 := SimAs(form, k, branch, start, w, c);
    RunKeepsBlock(k.Host(), k.code, c, n1);
    BlocksAs(form, k.cx.locals, branch, start);
    assert k.code[..c1.pc] == r.em.code;
    assert Block(start.code) == Some(from);
    c' := Jumps(k, r.em, end, at, Eval(k.cx, branch, w).world, c1);
    Chain(k, c, n1, c1, 1, c');
    n := n1 + 1;
  }

  /** The code in front of the `phi`. */
  lemma BeforePhi(k: Setting, first: Emitter, second: Emitter, a: Operand, fromA: Label,
                  b: Operand, fromB: Label, end: Label)
    requires Within(k, LS.Join(a, fromA, b, fromB, end, second).em) && Within(k, LS.Close(end, fromB, first))
    ensures
      var at := second.Put(Br(end)).Put(Mark(end));
      Within(k, at.Put(Phi(second.nextTemp, a, fromA, b, fromB))) && Within(k, at) && Within(k, second.Put(Br(end)))
        && Within(k, first.Put(Br(end)))
  {
    hide Within, LS.Extends;
    var closed := LS.Close(end, end, second);
    var i := Phi(second.nextTemp, a, fromA, b, fromB);
    assert closed.Temps(1).Put(i) == closed.Put(i).Temps(1);
    Uncounted(k, closed.Put(i), 0, 1);
    Fetch(k, closed, i);
    Fetch(k, second.Put(Br(end)), Mark(end));
    Fetch(k, first.Put(Br(end)), Mark(fromB));
  }

  lemma StillInBlock(k: Setting, c: Config, n: nat, c': Config)
    requires InBlock(k.code, c) && Reaches(k, c, n, c')
    ensures InBlock(k.code, c')
  {
    hide Run, InBlock;
    RunKeepsBlock(k.Host(), k.code, c, n);
  }

  lemma PhiSteps(k: Setting, em: Emitter, i: Instr, first: bool, v: Value, w: World, c: Config, below: Temp)
    requires i.Phi? && Within(k, em.Put(i)) && At(k, em, w, c) && i.fromA != i.fromB
    requires Holds(if first then i.a else i.b, c, v, below) && c.previous.Some?
    requires c.previous == Some(if first then i.fromA else i.fromB)
      || (c.previous != Some(i.fromA) && c.previous != Some(i.fromB))
    ensures c.pc < |k.code| && k.code[c.pc] == i
    ensures Step(k.Host(), k.code, c).Some? <==> c.previous == Some(if first then i.fromA else i.fromB)
  {
    Fetch(k, em, i);
  }

  /** The branch taken, from its first block to the `phi`. */
  lemma BranchToPhi(form: Form, k: Setting, start: Emitter, from: Label, branch: Expr, first: bool, at: Emitter,
                    phi: Instr, end: Label, w: World, c: Config)
    returns (n: nat, c': Config)
    requires k.Good() && JoinsAs(form, branch) && start.code != [] && start.code[|start.code| - 1] == Mark(from)
    requires Within(k, LowerAs(form, k.cx.locals, branch, start).em.Put(Br(end)))
      && Within(k, at.Put(Mark(end)).Put(phi)) && Within(k, at.Put(Mark(end)))
    requires At(k, start, w, c) && InBlock(k.code, c)
    requires phi.Phi? && phi.fromA < start.nextLabel && phi.fromB < start.nextLabel && phi.fromA != phi.fromB
    requires from == (if first then phi.fromA else phi.fromB)
    requires LowerAs(form, k.cx.locals, branch, start).operand == (if first then phi.a else phi.b)
    ensures Reaches(k, c, n, c') && c'.pc < |k.code| && k.code[c'.pc] == phi
    ensures Step(k.Host(), k.code, c').Some? <==> !ForksAs(form, branch)
  {
    hide Step, Related, Run, LS.Extends, Find, Setting.Good, ForksAs, JoinsAs, Eval, At, Within, Reaches, Holds;
    hide LowerAs, InBlock, LS.Emitter.Put, ValueAs;
    var r, v := LowerAs(form, k.cx.locals, branch, start), Eval(k.cx, branch, w);
    n, c' := AtPhi(form, k, start, from, branch, end, at, w, c);
    PhiSteps(k, at.Put(Mark(end)), phi, first, ValueAs(form, k.cx.ops, v.value), v.world, c', r.em.nextTemp);
  }

  lemma MarkLast(em: Emitter, l: Label)
    ensures var code := em.Put(Mark(l)).code; code != [] && code[|code| - 1] == Mark(l)
  {
  }

  /** A ternary lowered to branches, whether for its number, its truth or its text, arrives at its
      `phi`, and the `phi` is defined exactly when the branch taken opened no block; otherwise the
      machine is stuck there. */
  lemma JoinsExactly(form: Form, k: Setting, e: Expr, em: Emitter, w: World, c: Config) returns (n: nat, c': Config)
    requires JoinedAs(form, e) && ConditionJoins(e.test) && JoinsAs(form, e.ifTrue) && JoinsAs(form, e.ifFalse)
    requires k.Good() && Within(k, TernaryAs(form, k.cx.locals, e, em).em) && At(k, em, w, c) && InBlock(k.code, c)
    ensures Reaches(k, c, n, c') && c'.pc < |k.code| && k.code[c'.pc].Phi?
    ensures
      var taken := if k.cx.ops.Truthy(Eval(k.cx, e.test, w).value) then e.ifTrue else e.ifFalse;
      Step(k.Host(), k.code, c').Some? <==> !ForksAs(form, taken)
  {
    hide Step, Related, Run, LS.Extends, Find, Setting.Good, ForksAs, JoinsAs, Eval, Within, Reaches, At, Keeps;
    hide LS.Condition, Block, LS.Emitter.Put, ConditionJoins, InBlock, LowerAs, TernaryAs;
    hide Computed, Resolve, ValueAs;
    TernaryIs(form, k.cx.locals, e, em);
    var j, r, tested := PiecesOf(form, k.cx.locals, e, em), TernaryAs(form, k.cx.locals, e, em), Eval(k.cx, e.test, w);
    var m := j.test.em.nextLabel;
    var last := j.second.em.Put(Br(m + 2));
    var phi := Phi(r.operand.temp, j.first.operand, m, j.second.operand, m + 1);
    Backwards(k, j.test.em, j.fork, j.first.em, j.mid, j.second.em, r.em);
    BeforePhi(k, j.first.em, j.second.em, j.first.operand, m, j.second.operand, m + 1, m + 2);
    var b := k.cx.ops.Truthy(tested.value);
    var n1, c1 := SimCondition(k, e.test, em, w, c);
    var c2 := OpensTernary(k, em, j, b, m, tested.world, c, n1, c1);
    StillInBlock(k, c, n1 + 1, c2);
    var n3;
    MarkLast(j.test.em.Labels(3).Put(CondBr(j.test.operand, m, m + 1)), m);
    MarkLast(j.first.em.Put(Br(m + 2)), m + 1);
    if b {
      n3, c' := BranchToPhi(form, k, j.fork, m, e.ifTrue, true, last, phi, m + 2, tested.world, c2);
    } else {
      BlocksAs(form, k.cx.locals, e.ifTrue, j.fork);
      n3, c' := BranchToPhi(form, k, j.mid, m + 1, e.ifFalse, false, last, phi, m + 2, tested.world, c2);
    }
    Chain(k, c, n1 + 1, c2, n3, c');
    n := n1 + 1 + n3;
  }

  lemma SimpleJoins(x: Double)
    ensures TextJoins(Number(x)) && !TextForks(Number(x))
  {
    assert NumberJoins(Number(x)) && !NumberForks(Number(x));
  }

  /** As text every ternary forks, so one inside another's branch has a `phi` that names the wrong
      block, with no side effect anywhere: `(a ? (b ? x : y) : z) > 0` where `a` holds. */
  lemma NestedTernaryAsText(k: Setting, a: string, b: string, x: Double, y: Double, z: Double, em: Emitter, w: World,
                            c: Config) returns (n: nat, c': Config)
    requires k.cx.ops.Truthy(Read(k.cx, a, w))
    requires
      var inner := Conditional(Name(b), Number(x), Number(y));
      var e := Conditional(Name(a), inner, Number(z));
      k.Good() && Within(k, LS.TextOf(k.cx.locals, e, em).em) && At(k, em, w, c) && InBlock(k.code, c)
    ensures Reaches(k, c, n, c') && c'.pc < |k.code| && k.code[c'.pc].Phi? && Step(k.Host(), k.code, c').None?
  {
    hide Step, Related, Run, LS.Extends, Find, Setting.Good, Within, Reaches, At, Keeps, InBlock, LS.TextOf;
    var inner := Conditional(Name(b), Number(x), Number(y));
    var e := Conditional(Name(a), inner, Number(z));
    SimpleJoins(x);
    SimpleJoins(y);
    SimpleJoins(z);
    assert NumberJoins(Name(a)) && ConditionJoins(Name(a)) && NumberJoins(Name(b)) && ConditionJoins(Name(b));
    assert TextJoins(inner) && TextForks(inner);
    n, c' := JoinsExactly(AsText, k, e, em, w, c);
    assert Eval(k.cx, Name(a), w).value == Read(k.cx, a, w);
  }
}

/** Emitted statements do what the statement means: the machine ends where the outcome says,
    with the same variables and output, and runs for ever exactly when the statement does. */
module StmtSimulation {
  import opened Options
  import opened Syntax
  import opened Meaning
  import opened Machine
  import opened ExprSimulation
  import LS = LoweringSpec

  // ----- The statements covered -----

  predicate AllJoin(es: seq<Expr>) {
    forall e :: e in es ==> NumberJoins(e)
  }

  /** Every ternary in the statement is joined correctly. */
  predicate Joins(s: Stmt)
    decreases s
  {
    match s
    case AssignStmt(_, _, value) => NumberJoins(value)
    case ExprStmt(e) => NumberJoins(e)
    case Print(es) => AllJoin(es)
    case Block(ss) => forall t :: t in ss ==> Joins(t)
    case If(c, t, e) => ConditionJoins(c) && Joins(t) && (e.Some? ==> Joins(e.value))
    case While(c, body) => ConditionJoins(c) && Joins(body)
    case DoWhile(body, c) => ConditionJoins(c) && Joins(body)
    case For(init, test, update, body) =>
      AllJoin(init) && AllJoin(update) && Joins(body) && (test.Some? ==> ConditionJoins(test.value))
    case ExitStmt(status) => status.Some? ==> NumberJoins(status.value)
    case BreakStmt => true
    case ContinueStmt => true
    case NextStmt => true
    case NextFileStmt => true
  }

  // ----- Where a statement ends -----

  ghost predicate Goes(k: Setting, l: Label, c: Config) {
    Find(k.code, l).Some? && c.pc == Find(k.code, l).value + 1
  }

  /** The labels a statement may leave through are in the function. */
  ghost predicate Placed(k: Setting, to: LS.Targets) {
    && Find(k.code, to.exit).Some?
    && (to.onBreak.Some? ==> Find(k.code, to.onBreak.value).Some?)
    && (to.onContinue.Some? ==> Find(k.code, to.onContinue.value).Some?)
  }

  ghost predicate Ends(k: Setting, to: LS.Targets, later: Emitter, o: Outcome, c: Config) {
    match o
    case Normal => c.pc == |later.code|
    case Broke => to.onBreak.Some? && Goes(k, to.onBreak.value, c)
    case Continued => to.onContinue.Some? && Goes(k, to.onContinue.value, c)
    case Left => Goes(k, to.exit, c)
  }

  /** The code from `em` to `later` has run from `c`, to where memory is as in the result: to the end
      the result names, or, when the fuel did not last, for at least as many steps as there was fuel. */
  ghost predicate Ran(k: Setting, to: LS.Targets, em: Emitter, later: Emitter, result: Result, fuel: nat,
                      c: Config, n: nat, c': Config) {
    && Reaches(k, c, n, c')
    && Related(k, result.world, c'.memory)
    && (result.OutOfFuel? ==> fuel <= n)
    && (result.Done? ==> Keeps(c, c', em.nextTemp) && Ends(k, to, later, result.outcome, c'))
  }

  lemma ThenRan(k: Setting, to: LS.Targets, em: Emitter, mid: Emitter, later: Emitter, result: Result, fuel: nat,
                c: Config, n: nat, c1: Config, f: nat, m: nat, c2: Config)
    requires Reaches(k, c, n, c1) && Keeps(c, c1, em.nextTemp) && LS.Extends(em, mid) && fuel <= n + f
    requires Ran(k, to, mid, later, result, f, c1, m, c2)
    ensures Ran(k, to, em, later, result, fuel, c, n + m, c2)
  {
    Chain(k, c, n, c1, m, c2);
    if result.Done? { Then(k, em, c, n, c1, mid, m, c2); }
  }

  /** One instruction that changes memory and nothing else. */
  lemma SimEffect(k: Setting, em: Emitter, i: Instr, w: World, w': World, c: Config) returns (c': Config)
    requires Within(k, em.Put(i)) && At(k, em, w, c)
    requires
      match i
      case PrintNumber(a) => Resolve(a, c.temps).Some? && Resolve(a, c.temps).value.D?
        && w' == Emit(PrintedNumber(Resolve(a, c.temps).value.double), w)
      case PrintSeparator => w' == Emit(PrintedSeparator, w)
      case PrintEnd => w' == Emit(PrintedEnd, w)
      case PrintText(a) => Resolve(a, c.temps) == Some(Record) && w' == Emit(PrintedRecord, w)
      case CallNextFile => w' == Emit(SkippedFile, w)
      case RequestExit(a) => Resolve(a, c.temps).Some? && Resolve(a, c.temps).value.I?
        && w' == w.(exit := Some(Resolve(a, c.temps).value.number))
      case _ => false
    ensures Reaches(k, c, 1, c') && At(k, em.Put(i), w', c') && c'.temps == c.temps
  {
    hide Run, LS.Extends, Find, Within, Reaches;
    Fetch(k, em, i);
    c' := c.(pc := c.pc + 1, memory := c.memory.(output := w'.output, exit := w'.exit));
    Stays(k, c);
    ThenStep(k, c, 0, c, c');
  }

  lemma Stays(k: Setting, c: Config)
    ensures Reaches(k, c, 0, c)
  {
  }

  lemma Begun(k: Setting, em: Emitter, w: World, c: Config)
    requires At(k, em, w, c)
    ensures Reaches(k, c, 0, c) && Keeps(c, c, em.nextTemp)
  {
    Stays(k, c);
  }

  lemma Waits(k: Setting, em: Emitter, w: World, c: Config)
    requires At(k, em, w, c)
    ensures Reaches(k, c, 0, c) && Related(k, w, c.memory)
  {
    Stays(k, c);
  }

  // ----- Straight-line statements -----

  lemma {:induction false} SimEach(k: Setting, es: seq<Expr>, em: Emitter, w: World, c: Config)
    returns (n: nat, c': Config)
    requires k.Good() && AllJoin(es) && Within(k, LS.Each(k.cx.locals, es, em)) && At(k, em, w, c)
    ensures Reaches(k, c, n, c') && At(k, LS.Each(k.cx.locals, es, em), EvalAll(k.cx, es, w), c')
      && Keeps(c, c', em.nextTemp)
    decreases es
  {
    hide Step, Related, Run, LS.Extends, Find, Within, Reaches, At, Keeps, Setting.Good, Eval, LS.Number, NumberJoins;
    if es == [] {
      n, c' := 0, c;
      Begun(k, em, w, c);
    } else {
      var r, v := LS.Number(k.cx.locals, es[0], em), Eval(k.cx, es[0], w);
      Earlier(k, r.em, LS.Each(k.cx.locals, es[1..], r.em));
      var n1, c1 := SimNumber(k, es[0], em, w, c);
      var n2, c2 := SimEach(k, es[1..], r.em, v.world, c1);
      Then(k, em, c, n1, c1, r.em, n2, c2);
      n, c' := n1 + n2, c2;
    }
  }

  lemma {:induction false} SimPrint(k: Setting, es: seq<Expr>, index: nat, em: Emitter, w: World, c: Config)
    returns (n: nat, c': Config)
    requires k.Good() && AllJoin(es) && index <= |es| && Within(k, LS.PrintArguments(k.cx.locals, es, index, em))
      && At(k, em, w, c)
    ensures Reaches(k, c, n, c')
      && At(k, LS.PrintArguments(k.cx.locals, es, index, em), PrintAll(k.cx, es, index, w), c')
    ensures Keeps(c, c', em.nextTemp)
    decreases |es| - index
  {
    hide Step, Related, Run, LS.Extends, Find, Within, Reaches, At, Keeps, Setting.Good, Eval, LS.Number, NumberJoins;
    hide LS.Emitter.Put;
    if index == |es| {
      c' := SimEffect(k, em, PrintEnd, w, Emit(PrintedEnd, w), c);
      KeepsAll(c, c', em.nextTemp);
      n := 1;
    } else {
      var em1, w1 := em, w;
      var n1, c1 := 0, c;
      PutExtends(em, PrintSeparator);
      if index > 0 {
        em1, w1 := em.Put(PrintSeparator), Emit(PrintedSeparator, w);
      }
      var r, v := LS.Number(k.cx.locals, es[index], em1), Eval(k.cx, es[index], w1);
      var em2 := r.em.Put(PrintNumber(r.operand));
      var w2 := Emit(PrintedNumber(v.value), v.world);
      Earlier(k, em2, LS.PrintArguments(k.cx.locals, es, index + 1, em2));
      Fetch(k, r.em, PrintNumber(r.operand));
      Earlier(k, em1, r.em);
      if index > 0 {
        n1 := 1;
        c1 := SimSeparator(k, em, w, c);
      } else {
        Begun(k, em, w, c);
      }
      var n2, c2 := SimNumber(k, es[index], em1, w1, c1);
      Then(k, em, c, n1, c1, em1, n2, c2);
      Grows(em, em1, r.em);
      var c3 := SimEffect(k, r.em, PrintNumber(r.operand), v.world, w2, c2);
      KeepsAll(c2, c3, r.em.nextTemp);
      Then(k, em, c, n1 + n2, c2, r.em, 1, c3);
      PutExtends(r.em, PrintNumber(r.operand));
      Grows(em, r.em, em2);
      var n4, c4 := SimPrint(k, es, index + 1, em2, w2, c3);
      Then(k, em, c, n1 + n2 + 1, c3, em2, n4, c4);
      n, c' := n1 + n2 + 1 + n4, c4;
    }
  }

  lemma SimSeparator(k: Setting, em: Emitter, w: World, c: Config) returns (c': Config)
    requires Within(k, em.Put(PrintSeparator)) && At(k, em, w, c)
    ensures Reaches(k, c, 1, c') && At(k, em.Put(PrintSeparator), Emit(PrintedSeparator, w), c')
      && Keeps(c, c', em.nextTemp)
  {
    c' := SimEffect(k, em, PrintSeparator, w, Emit(PrintedSeparator, w), c);
  }

  lemma SimDefaultPrint(k: Setting, em: Emitter, w: World, c: Config) returns (n: nat, c': Config)
    requires Within(k, LS.DefaultPrint(em)) && At(k, em, w, c)
    ensures Reaches(k, c, n, c') && At(k, LS.DefaultPrint(em), Emit(PrintedRecord, w), c') && Keeps(c, c', em.nextTemp)
  {
    hide Step, Related, Run, LS.Extends, Find, Within, Reaches, At, Keeps, Setting.Good;
    var r := LS.Last(LoadRecord(em.nextTemp), em);
    Fetch(k, r.em, PrintText(r.operand));
    var c1 := SimLast(k, em, LoadRecord(em.nextTemp), w, c, Record);
    c' := SimEffect(k, r.em, PrintText(r.operand), w, Emit(PrintedRecord, w), c1);
    KeepsAll(c1, c', r.em.nextTemp);
    Then(k, em, c, 1, c1, r.em, 1, c');
    n := 2;
  }

  lemma SimAssignment(k: Setting, s: Stmt, em: Emitter, w: World, c: Config, fuel: nat) returns (n: nat, c': Config)
    requires s.AssignStmt? && Joins(s) && k.Good() && At(k, em, w, c)
    requires Within(k, LS.Assignment(k.cx.locals, s.target, s.aop, s.value, em))
    ensures
      Reaches(k, c, n, c')
        && At(k, LS.Assignment(k.cx.locals, s.target, s.aop, s.value, em), Exec(k.cx, s, w, fuel).world, c')
      && Keeps(c, c', em.nextTemp)
  {
    hide Step, Related, Run, LS.Extends, Find, Within, Reaches, At, Keeps, Setting.Good, Write, Eval, LS.Number;
    hide NumberJoins, LS.VariableAddress;
    var ls, x := k.cx.locals, s.target;
    var a := LS.VariableAddress(ls, x, em);
    var r, v := LS.Number(ls, s.value, a.em), Eval(k.cx, s.value, w);
    if s.aop.Plain? {
      Fetch(k, r.em, Store(r.operand, a.address));
      Earlier(k, a.em, r.em);
      var n1, c1 := SimAddress(k, x, em, w, c);
      var n2, c2 := SimNumber(k, s.value, a.em, w, c1);
      Then(k, em, c, n1, c1, a.em, n2, c2);
      Grows(em, a.em, r.em);
      StillAddresses(k, a.address, x, c1, c2, a.em.nextTemp, a.em.nextTemp);
      c' := SimStore(k, r.em, r.operand, v.value, a.address, x, v.world, c2, a.em.nextTemp);
      KeepsAll(c2, c', r.em.nextTemp);
      Then(k, em, c, n1 + n2, c2, r.em, 1, c');
      n := n1 + n2 + 1;
    } else {
      n, c' := SimCompound(k, s, em, w, c);
    }
  }

  /** `x op= value` as a statement: the old value is loaded after the right side has run. */
  lemma SimCompound(k: Setting, s: Stmt, em: Emitter, w: World, c: Config) returns (n: nat, c': Config)
    requires s.AssignStmt? && s.aop.Compound? && NumberJoins(s.value) && k.Good() && At(k, em, w, c)
    requires Within(k, LS.Assignment(k.cx.locals, s.target, s.aop, s.value, em))
    ensures
      var v := Eval(k.cx, s.value, w);
      var stored := k.cx.ops.Arith(s.aop.op, Read(k.cx, s.target, v.world), v.value);
      && Reaches(k, c, n, c') && Keeps(c, c', em.nextTemp)
      && At(k, LS.Assignment(k.cx.locals, s.target, s.aop, s.value, em),
            Write(k.cx, s.target, stored, NoteRead(s.target, v.world)), c')
  {
    hide Step, Related, Run, LS.Extends, Find, Within, Reaches, At, Keeps, Setting.Good, Write, Read, Eval, LS.Number;
    hide NumberJoins, LS.VariableAddress, LS.Combine;
    var ls, x := k.cx.locals, s.target;
    var a := LS.VariableAddress(ls, x, em);
    var r, v := LS.Number(ls, s.value, a.em), Eval(k.cx, s.value, w);
    var t := r.em.nextTemp;
    var loaded := LS.Last(Load(t, a.address), r.em);
    var u := LS.Combine(s.aop.op, Use(t), r.operand, loaded.em);
    var before := Read(k.cx, x, v.world);
    Fetch(k, u.em, Store(u.operand, a.address));
    Earlier(k, loaded.em, u.em);
    Earlier(k, r.em, loaded.em);
    Earlier(k, a.em, r.em);
    Grows(em, a.em, r.em);
    Grows(a.em, r.em, loaded.em);
    var n1, c1 := SimAddress(k, x, em, w, c);
    var n2, c2 := SimNumber(k, s.value, a.em, w, c1);
    Then(k, em, c, n1, c1, a.em, n2, c2);
    StillAddresses(k, a.address, x, c1, c2, a.em.nextTemp, a.em.nextTemp);
    var c3 := SimReload(k, a.address, x, r.em, v.world, c2, a.em.nextTemp);
    Then(k, em, c, n1 + n2, c2, r.em, 1, c3);
    StillHolds(r.operand, D(v.value), c2, c3, t, t);
    var n4, c4 := SimCombine(k, s.aop.op, Use(t), before, r.operand, v.value, loaded.em, v.world, c3);
    Grows(em, r.em, loaded.em);
    Then(k, em, c, n1 + n2 + 1, c3, loaded.em, n4, c4);
    StillAddresses(k, a.address, x, c3, c4, a.em.nextTemp, loaded.em.nextTemp);
    var stored := k.cx.ops.Arith(s.aop.op, before, v.value);
    Watch(k, u.em, v.world, NoteRead(x, v.world), c4);
    c' := SimStore(k, u.em, u.operand, stored, a.address, x, NoteRead(x, v.world), c4, a.em.nextTemp);
    KeepsAll(c4, c', loaded.em.nextTemp);
    Then(k, em, c, n1 + n2 + 1 + n4, c4, loaded.em, 1, c');
    n := n1 + n2 + 1 + n4 + 1;
  }

  lemma SimReload(k: Setting, a: Address, x: string, em: Emitter, w: World, c: Config, below: Temp) returns (c': Config)
    requires k.Good() && Within(k, LS.Last(Load(em.nextTemp, a), em).em) && At(k, em, w, c)
      && Addresses(k, a, x, c, below) && below <= em.nextTemp
    ensures Computed(k, em, LS.Last(Load(em.nextTemp, a), em), w, D(Read(k.cx, x, w)), c, 1, c')
      && Addresses(k, a, x, c', below)
  {
    hide Step, Related, Run, LS.Extends, Find, Within, Reaches, Keeps, Setting.Good, Read;
    c' := SimLoad(k, em.Temps(1), em.nextTemp, a, x, w, c);
    StillAddresses(k, a, x, c, c', below, em.nextTemp);
  }

  lemma SimExit(k: Setting, status: Option<Expr>, em: Emitter, w: World, c: Config, fuel: nat)
    returns (n: nat, c': Config)
    requires (status.Some? ==> NumberJoins(status.value)) && k.Good() && At(k, em, w, c)
      && Within(k, LS.Exit(k.cx.locals, status, em))
    ensures Reaches(k, c, n, c') && Keeps(c, c', em.nextTemp)
    ensures At(k, LS.Exit(k.cx.locals, status, em), Exec(k.cx, ExitStmt(status), w, fuel).world, c')
  {
    hide Step, Related, Run, LS.Extends, Find, Within, Reaches, At, Keeps, Setting.Good, Eval, LS.Number, NumberJoins;
    hide LS.Last, LS.Emitter.Put;
    if status.None? {
      c' := SimEffect(k, em, RequestExit(IntLiteral(0)), w, w.(exit := Some(0)), c);
      KeepsAll(c, c', em.nextTemp);
      n := 1;
    } else {
      n, c' := SimExitValue(k, status.value, em, w, c);
    }
  }

  lemma SimExitValue(k: Setting, e: Expr, em: Emitter, w: World, c: Config) returns (n: nat, c': Config)
    requires NumberJoins(e) && k.Good() && At(k, em, w, c) && Within(k, LS.Exit(k.cx.locals, Some(e), em))
    ensures Reaches(k, c, n, c') && Keeps(c, c', em.nextTemp)
    ensures
      var v := Eval(k.cx, e, w);
      At(k, LS.Exit(k.cx.locals, Some(e), em), v.world.(exit := Some(k.cx.ops.status(v.value))), c')
  {
    hide Step, Related, Run, LS.Extends, Find, Within, Reaches, At, Keeps, Setting.Good, Eval, LS.Number, NumberJoins;
    hide LS.Last;
    var r, v := LS.Number(k.cx.locals, e, em), Eval(k.cx, e, w);
    var i := LS.Last(DoubleToInt(r.em.nextTemp, r.operand), r.em);
    Fetch(k, i.em, RequestExit(i.operand));
    Earlier(k, r.em, i.em);
    var n1, c1 := SimNumber(k, e, em, w, c);
    var c2 := SimLast(k, r.em, DoubleToInt(r.em.nextTemp, r.operand), v.world, c1, I(k.cx.ops.status(v.value)));
    Then(k, em, c, n1, c1, r.em, 1, c2);
    Grows(em, r.em, i.em);
    c' := SimEffect(k, i.em, RequestExit(i.operand), v.world, v.world.(exit := Some(k.cx.ops.status(v.value))), c2);
    KeepsAll(c2, c', i.em.nextTemp);
    Then(k, em, c, n1 + 1, c2, i.em, 1, c');
    n := n1 + 2;
  }

  // ----- Control flow -----

  lemma {:induction false} SimStatement(k: Setting, s: Stmt, to: LS.Targets, em: Emitter, later: Emitter,
                                        w: World, c: Config, fuel: nat)
    returns (n: nat, c': Config)
    requires k.Good() && Joins(s) && Placed(k, to) && LS.Statement(k.cx.locals, s, to, em) == Some(later)
    requires Within(k, later) && At(k, em, w, c)
    ensures Ran(k, to, em, later, Exec(k.cx, s, w, fuel), fuel, c, n, c')
    decreases fuel, s, 3
  {
    hide Step, Related, Run, LS.Extends, Find, Within, Reaches, At, Keeps, Setting.Good, Eval, LS.Number, NumberJoins;
    hide ConditionJoins;
    hide LS.Assignment, LS.Exit, LS.IfStatement, LS.WhileStatement, LS.DoStatement, LS.ForStatement, Placed, Goes;
    hide AllJoin;
    match s
    case AssignStmt(_, _, _) =>
      n, c' := SimAssignment(k, s, em, w, c, fuel);
      Finished(k, to, em, later, Exec(k.cx, s, w, fuel).world, fuel, c, n, c');
    case ExprStmt(e) =>
      n, c' := SimNumber(k, e, em, w, c);
      Finished(k, to, em, later, Eval(k.cx, e, w).world, fuel, c, n, c');
    case Print(es) =>
      if es == [] { n, c' := SimDefaultPrint(k, em, w, c); } else { n, c' := SimPrint(k, es, 0, em, w, c); }
      Finished(k, to, em, later, Exec(k.cx, s, w, fuel).world, fuel, c, n, c');
    case Block(ss) => n, c' := SimStatements(k, ss, to, em, later, w, c, fuel);
    case If(_, _, _) => n, c' := SimIf(k, s, to, em, later, w, c, fuel);
    case While(_, _) => n, c' := SimWhile(k, s, to, em, later, w, c, fuel);
    case DoWhile(_, _) => n, c' := SimDo(k, s, to, em, later, w, c, fuel);
    case For(_, _, _, _) => n, c' := SimFor(k, s, to, em, later, w, c, fuel);
    case BreakStmt => n, c' := SimLeave(k, to, em, later, Broke, to.onBreak.value, w, c, fuel);
    case ContinueStmt => n, c' := SimLeave(k, to, em, later, Continued, to.onContinue.value, w, c, fuel);
    case NextStmt => n, c' := SimLeave(k, to, em, later, Left, to.exit, w, c, fuel);
    case NextFileStmt => n, c' := SimNextFile(k, to, em, later, w, c, fuel);
    case ExitStmt(status) => n, c' := SimExitStmt(k, status, to, em, later, w, c, fuel);
  }

  lemma Finished(k: Setting, to: LS.Targets, em: Emitter, later: Emitter, w: World,
                 fuel: nat, c: Config, n: nat, c': Config)
    requires Reaches(k, c, n, c') && Keeps(c, c', em.nextTemp) && At(k, later, w, c')
    ensures Ran(k, to, em, later, Done(Normal, w), fuel, c, n, c')
  {
  }

  /** `br label %l`, out of the statement. */
  lemma SimLeave(k: Setting, to: LS.Targets, em: Emitter, later: Emitter, o: Outcome,
                 l: Label, w: World, c: Config, fuel: nat)
    returns (n: nat, c': Config)
    requires Placed(k, to) && later == em.Put(Br(l)) && Within(k, later) && At(k, em, w, c)
    requires o != Normal && (o.Broke? ==> to.onBreak == Some(l)) && (o.Continued? ==> to.onContinue == Some(l))
      && (o.Left? ==> to.exit == l)
    ensures Ran(k, to, em, later, Done(o, w), fuel, c, n, c')
  {
    hide Run, LS.Extends, Find, Within, Reaches;
    Fetch(k, em, Br(l));
    c' := Jump(k.code, l, c).value;
    Stays(k, c);
    ThenStep(k, c, 0, c, c');
    n := 1;
  }

  lemma SimNextFile(k: Setting, to: LS.Targets, em: Emitter, later: Emitter, w: World, c: Config, fuel: nat)
    returns (n: nat, c': Config)
    requires Placed(k, to) && later == em.Put(CallNextFile).Put(Br(to.exit)) && Within(k, later) && At(k, em, w, c)
    ensures Ran(k, to, em, later, Done(Left, Emit(SkippedFile, w)), fuel, c, n, c')
  {
    hide Step, Related, Run, LS.Extends, Find, Within, Reaches, At, Keeps, Goes, Placed;
    var w1 := Emit(SkippedFile, w);
    Fetch(k, em.Put(CallNextFile), Br(to.exit));
    var c1 := SimEffect(k, em, CallNextFile, w, w1, c);
    KeepsAll(c, c1, em.nextTemp);
    PutExtends(em, CallNextFile);
    var n2, c2 := SimLeave(k, to, em.Put(CallNextFile), later, Left, to.exit, w1, c1, fuel);
    ThenRan(k, to, em, em.Put(CallNextFile), later, Done(Left, w1), fuel, c, 1, c1, fuel, n2, c2);
    n, c' := 1 + n2, c2;
  }

  lemma SimExitStmt(k: Setting, status: Option<Expr>, to: LS.Targets, em: Emitter, later: Emitter,
                    w: World, c: Config, fuel: nat)
    returns (n: nat, c': Config)
    requires k.Good() && (status.Some? ==> NumberJoins(status.value)) && Placed(k, to)
    requires later == LS.Exit(k.cx.locals, status, em).Put(Br(to.exit)) && Within(k, later) && At(k, em, w, c)
    ensures Ran(k, to, em, later, Exec(k.cx, ExitStmt(status), w, fuel), fuel, c, n, c')
  {
    hide Step, Related, Run, LS.Extends, Find, Within, Reaches, At, Keeps, Goes, Placed, Setting.Good, LS.Exit, Eval;
    var mid, r := LS.Exit(k.cx.locals, status, em), Exec(k.cx, ExitStmt(status), w, fuel);
    Fetch(k, mid, Br(to.exit));
    var n1, c1 := SimExit(k, status, em, w, c, fuel);
    var n2, c2 := SimLeave(k, to, mid, later, Left, to.exit, r.world, c1, fuel);
    ThenRan(k, to, em, mid, later, r, fuel, c, n1, c1, fuel, n2, c2);
    n, c' := n1 + n2, c2;
  }

  lemma {:induction false} SimStatements(k: Setting, ss: seq<Stmt>, to: LS.Targets, em: Emitter, later: Emitter,
                                         w: World, c: Config, fuel: nat)
    returns (n: nat, c': Config)
    requires k.Good() && (forall t :: t in ss ==> Joins(t)) && Placed(k, to)
      && LS.Statements(k.cx.locals, ss, to, em) == Some(later)
    requires Within(k, later) && At(k, em, w, c)
    ensures Ran(k, to, em, later, ExecAll(k.cx, ss, w, fuel), fuel, c, n, c')
    decreases fuel, ss, 1
  {
    hide Step, Related, Run, LS.Extends, Find, Within, Reaches, At, Keeps, Setting.Good, LS.Statement, Placed, Goes;
    hide Joins, Exec;
    if ss == [] {
      n, c' := 0, c;
      Begun(k, em, w, c);
      Finished(k, to, em, later, w, fuel, c, n, c');
    } else {
      var mid := LS.Statement(k.cx.locals, ss[0], to, em).value;
      var first := Exec(k.cx, ss[0], w, fuel);
      Earlier(k, mid, later);
      var n1, c1 := SimStatement(k, ss[0], to, em, mid, w, c, fuel);
      if first.Done? && first.outcome.Normal? {
        Arrived(k, to, em, mid, first, fuel, c, n1, c1);
        var n2, c2 := SimStatements(k, ss[1..], to, mid, later, first.world, c1, fuel);
        ThenRan(k, to, em, mid, later, ExecAll(k.cx, ss[1..], first.world, fuel), fuel, c, n1, c1, fuel, n2, c2);
        n, c' := n1 + n2, c2;
      } else {
        n, c' := n1, c1;
        Elsewhere(k, to, em, mid, later, first, fuel, c, n, c');
      }
    }
  }

  lemma Arrived(k: Setting, to: LS.Targets, em: Emitter, later: Emitter, r: Result,
                fuel: nat, c: Config, n: nat, c': Config)
    requires Ran(k, to, em, later, r, fuel, c, n, c') && r.Done? && r.outcome.Normal?
    ensures Reaches(k, c, n, c') && Keeps(c, c', em.nextTemp) && At(k, later, r.world, c')
  {
  }

  /** A result that does not fall through does not care what comes after. */
  lemma Elsewhere(k: Setting, to: LS.Targets, em: Emitter, mid: Emitter, later: Emitter, r: Result,
                  fuel: nat, c: Config, n: nat, c': Config)
    requires Ran(k, to, em, mid, r, fuel, c, n, c') && (r.Done? ==> r.outcome != Normal)
    ensures Ran(k, to, em, later, r, fuel, c, n, c')
  {
  }

  /** `br label %end` and the block `end`, at the close of a branch. */
  lemma SimClose(k: Setting, to: LS.Targets, em: Emitter, mid: Emitter, target: Label,
                 next: Label, at: Emitter, later: Emitter,
                 r: Result, fuel: nat, c: Config, n: nat, c1: Config) returns (m: nat, c': Config)
    requires k.Good() && Within(k, LS.Close(target, next, mid)) && LS.Extends(em, mid)
    requires Ran(k, to, em, mid, r, fuel, c, n, c1) && later == at.Put(Mark(target)) && Within(k, later)
    ensures Ran(k, to, em, later, r, fuel, c, m, c')
  {
    hide Step, Related, Run, LS.Extends, Find, Within, Reaches, At, Keeps, Goes, Setting.Good;
    m, c' := n, c1;
    if r.Done? && r.outcome.Normal? {
      Arrived(k, to, em, mid, r, fuel, c, n, c1);
      Fetch(k, mid.Put(Br(target)), Mark(next));
      c' := Jumps(k, mid, target, at, r.world, c1);
      KeepsAll(c1, c', mid.nextTemp);
      Finished(k, to, mid, later, r.world, fuel, c1, 1, c');
      ThenRan(k, to, em, mid, later, r, fuel, c, n, c1, fuel, 1, c');
      m := n + 1;
    } else {
      Elsewhere(k, to, em, mid, later, r, fuel, c, n, c1);
    }
  }

  /** The pieces of an `if` lie within the function, each after the one before. */
  lemma IfParts(k: Setting, em: Emitter, em0: Emitter, tested: Emitter, o: Operand, fork: Emitter,
                em1: Emitter, mid: Emitter, em2: Emitter,
                m: Label, end: Label, both: bool)
    requires em0 == em.Labels(if both then 3 else 2) && LS.Extends(em0, tested) && fork == LS.Fork(o, m, m + 1, tested)
      && LS.Extends(fork, em1)
    requires mid == LS.Close(end, m + 1, em1) && (if both then LS.Extends(mid, em2) else em2 == em1 && end == m + 1)
    requires Within(k, LS.Close(end, end, em2))
    ensures Within(k, em2.Put(Br(end))) && Within(k, em2) && Within(k, mid) && Within(k, em1.Put(Br(end)))
      && Within(k, em1)
    ensures Within(k, fork) && Within(k, tested) && LS.Extends(em, fork) && LS.Extends(em, mid) && LS.Extends(fork, em1)
  {
    hide LS.Extends, Within, LS.Emitter.Put;
    Fetch(k, em2.Put(Br(end)), Mark(end));
    Fetch(k, em2, Br(end));
    if both { Earlier(k, mid, em2); }
    Fetch(k, em1.Put(Br(end)), Mark(m + 1));
    Fetch(k, em1, Br(end));
    Earlier(k, fork, em1);
    Earlier(k, tested, fork);
    Uncounted(k, em, if both then 3 else 2, 0);
    Grows(em, em0, tested);
    Grows(em, tested, fork);
    Grows(fork, em1, mid);
    Grows(em, fork, mid);
  }

  lemma {:induction false} SimIf(k: Setting, s: Stmt, to: LS.Targets, em: Emitter, later: Emitter,
                                 w: World, c: Config, fuel: nat)
    returns (n: nat, c': Config)
    requires s.If? && k.Good() && Joins(s) && Placed(k, to) && LS.IfStatement(k.cx.locals, s, to, em) == Some(later)
    requires Within(k, later) && At(k, em, w, c)
    ensures Ran(k, to, em, later, Exec(k.cx, s, w, fuel), fuel, c, n, c')
    decreases fuel, s, 2
  {
    hide Step, Related, Run, LS.Extends, Find, Within, Reaches, At, Keeps, Setting.Good, LS.Statement, Placed, Goes;
    hide Eval, LS.Condition, ConditionJoins;
    var ls, m, both := k.cx.locals, em.nextLabel, s.elseBranch.Some?;
    var end := if both then m + 2 else m + 1;
    var em0 := em.Labels(if both then 3 else 2);
    var test, tested := LS.Condition(ls, s.condition, em0), Eval(k.cx, s.condition, w);
    var fork := LS.Fork(test.operand, m, m + 1, test.em);
    var em1 := LS.Statement(ls, s.thenBranch, to, fork).value;
    var mid := LS.Close(end, m + 1, em1);
    var em2 := if both then LS.Statement(ls, s.elseBranch.value, to, mid).value else em1;
    assert later == LS.Close(end, end, em2);
    IfParts(k, em, em0, test.em, test.operand, fork, em1, mid, em2, m, end, both);
    var b := k.cx.ops.Truthy(tested.value);
    Counted(k, em, if both then 3 else 2, 0, w, c);
    var n1, c1 := SimCondition(k, s.condition, em0, w, c);
    var c2 := SimFork(k, test.operand, b, m, m + 1, test.em, em1.Put(Br(end)), tested.world, c1);
    Then(k, em0, c, n1, c1, test.em, 1, c2);
    if b {
      var r := Exec(k.cx, s.thenBranch, tested.world, fuel);
      var n3, c3 := SimStatement(k, s.thenBranch, to, fork, em1, tested.world, c2, fuel);
      var n4, c4 := SimClose(k, to, fork, em1, end, m + 1, em2.Put(Br(end)), later, r, fuel, c2, n3, c3);
      ThenRan(k, to, em, fork, later, r, fuel, c, n1 + 1, c2, fuel, n4, c4);
      n, c' := n1 + 1 + n4, c4;
    } else if both {
      var r := Exec(k.cx, s.elseBranch.value, tested.world, fuel);
      var n3, c3 := SimStatement(k, s.elseBranch.value, to, mid, em2, tested.world, c2, fuel);
      var n4, c4 := SimClose(k, to, mid, em2, end, end, em2.Put(Br(end)), later, r, fuel, c2, n3, c3);
      ThenRan(k, to, em, mid, later, r, fuel, c, n1 + 1, c2, fuel, n4, c4);
      n, c' := n1 + 1 + n4, c4;
    } else {
      n, c' := n1 + 1, c2;
      Finished(k, to, em, later, tested.world, fuel, c, n, c');
    }
  }

  /** A conditional branch into the block that follows, or into `m`. */
  lemma SimFork(k: Setting, o: Operand, b: bool, l: Label, m: Label, tested: Emitter, other: Emitter,
                w: World, c: Config) returns (c': Config)
    requires k.Good() && At(k, tested, w, c) && Resolve(o, c.temps) == Some(B(b))
    requires Within(k, LS.Fork(o, l, m, tested)) && Within(k, other.Put(Mark(m)))
    ensures Reaches(k, c, 1, c') && Keeps(c, c', tested.nextTemp)
    ensures At(k, if b then LS.Fork(o, l, m, tested) else other.Put(Mark(m)), w, c')
  {
    hide Step, Related, Run, LS.Extends, Find, Within, Reaches, Keeps, LS.Emitter.Put, Setting.Good;
    Uncounted(k, tested, 0, 0);
    c' := Opens(k, o, b, l, m, tested, other, 0, w, c);
  }

  // ----- Loops -----

  lemma SelfExtends(em: Emitter)
    ensures LS.Extends(em, em)
  {
  }

  lemma MarkedAt(k: Setting, at: Emitter, l: Label)
    requires k.Good() && Within(k, at.Put(Mark(l)))
    ensures Find(k.code, l) == Some(|at.code|)
  {
    hide Within, Find;
    Fetch(k, at, Mark(l));
  }

  /** A body that fell through or was continued: control stands where the loop continues. */
  lemma SimTurn(k: Setting, inner: LS.Targets, em: Emitter, mid: Emitter, target: Label, next: Label, at: Emitter,
                r: Result, fuel: nat, c: Config, n: nat, c1: Config) returns (m: nat, c': Config)
    requires k.Good() && Within(k, LS.Close(target, next, mid)) && Within(k, at.Put(Mark(target)))
      && LS.Extends(em, mid)
    requires Ran(k, inner, em, mid, r, fuel, c, n, c1) && inner.onContinue == Some(target)
    requires r.Done? && (r.outcome.Normal? || r.outcome.Continued?)
    ensures Reaches(k, c, m, c') && Keeps(c, c', em.nextTemp) && At(k, at.Put(Mark(target)), r.world, c')
  {
    hide Step, Related, Run, LS.Extends, Find, Within, Reaches, Keeps, Setting.Good;
    MarkedAt(k, at, target);
    m, c' := n, c1;
    if r.outcome.Normal? {
      Arrived(k, inner, em, mid, r, fuel, c, n, c1);
      Fetch(k, mid.Put(Br(target)), Mark(next));
      c' := Jumps(k, mid, target, at, r.world, c1);
      KeepsAll(c1, c', mid.nextTemp);
      Then(k, em, c, n, c1, mid, 1, c');
      m := n + 1;
    }
  }

  /** A body after which the loop does not go on. */
  lemma SimLoopEnd(k: Setting, to: LS.Targets, inner: LS.Targets, em: Emitter, mid: Emitter,
                   end: Label, at: Emitter, later: Emitter,
                   r: Result, fuel: nat, c: Config, n: nat, c1: Config)
    requires k.Good() && later == at.Put(Mark(end)) && Within(k, later) && inner.onBreak == Some(end)
      && inner.exit == to.exit
    requires Ran(k, inner, em, mid, r, fuel, c, n, c1) && (r.Done? ==> r.outcome.Broke? || r.outcome.Left?)
    ensures Ran(k, to, em, later, if r.Done? && r.outcome.Broke? then Done(Normal, r.world) else r, fuel, c, n, c1)
  {
    hide Step, Related, Run, LS.Extends, Find, Within, Reaches, Keeps, Setting.Good;
    MarkedAt(k, at, end);
  }

  ghost predicate WhileParts(k: Setting, s: Stmt, to: LS.Targets, em: Emitter, later: Emitter,
                             head: Emitter, test: LS.Lowered,
                             fork: Emitter, body: Emitter, inner: LS.Targets) {
    var m := em.nextLabel;
    && s.While? && head == LS.Close(m, m, em.Labels(3)) && test == LS.Condition(k.cx.locals, s.condition, head)
    && fork == LS.Fork(test.operand, m + 1, m + 2, test.em) && inner == LS.Targets(Some(m + 2), Some(m), to.exit)
    && LS.Statement(k.cx.locals, s.body, inner, fork) == Some(body) && later == LS.Close(m, m + 2, body)
    && Within(k, later) && Within(k, body) && Within(k, fork) && Within(k, test.em) && Within(k, head)
    && LS.Extends(head, fork) && LS.Extends(em, head) && Placed(k, inner)
  }

  lemma ClosedAt(k: Setting, target: Label, next: Label, em: Emitter)
    requires k.Good() && Within(k, LS.Close(target, next, em))
    ensures Within(k, em.Put(Br(target))) && Within(k, em) && Find(k.code, next).Some?
  {
    hide Within, Find, LS.Emitter.Put, Setting.Good;
    Closed(k, target, next, em);
    MarkedAt(k, em.Put(Br(target)), next);
  }

  /** Into the first block of a loop. */
  lemma EntersLoop(k: Setting, em: Emitter, labels: nat, m: Label, w: World, c: Config) returns (c': Config)
    requires k.Good() && Within(k, LS.Close(m, m, em.Labels(labels))) && At(k, em, w, c)
    ensures Reaches(k, c, 1, c') && Keeps(c, c', em.nextTemp) && At(k, LS.Close(m, m, em.Labels(labels)), w, c')
  {
    hide Step, Related, Run, LS.Extends, Find, Within, Reaches, At, Keeps, Setting.Good, LS.Emitter.Put;
    var em0 := em.Labels(labels);
    Counted(k, em, labels, 0, w, c);
    Closed(k, m, m, em0);
    c' := Jumps(k, em0, m, em0.Put(Br(m)), w, c);
    KeepsAll(c, c', em.nextTemp);
  }

  lemma WhileIs(k: Setting, s: Stmt, to: LS.Targets, em: Emitter, later: Emitter)
    returns (head: Emitter, test: LS.Lowered, fork: Emitter, body: Emitter, inner: LS.Targets)
    requires s.While? && k.Good() && Placed(k, to) && LS.WhileStatement(k.cx.locals, s, to, em) == Some(later)
      && Within(k, later)
    ensures WhileParts(k, s, to, em, later, head, test, fork, body, inner)
  {
    hide LS.Extends, Find, Within, Setting.Good, LS.Statement, LS.Condition, LS.Close, LS.Fork;
    var m := em.nextLabel;
    head := LS.Close(m, m, em.Labels(3));
    test := LS.Condition(k.cx.locals, s.condition, head);
    fork := LS.Fork(test.operand, m + 1, m + 2, test.em);
    inner := LS.Targets(Some(m + 2), Some(m), to.exit);
    body := LS.Statement(k.cx.locals, s.body, inner, fork).value;
    ClosedAt(k, m, m + 2, body);
    Earlier(k, fork, body);
    Earlier(k, test.em, fork);
    Earlier(k, head, test.em);
    ClosedAt(k, m, m, em.Labels(3));
    Grows(head, test.em, fork);
    Uncounted(k, em, 3, 0);
    Grows(em, em.Labels(3), head);
  }

  lemma {:induction false} SimWhile(k: Setting, s: Stmt, to: LS.Targets, em: Emitter, later: Emitter,
                                    w: World, c: Config, fuel: nat)
    returns (n: nat, c': Config)
    requires s.While? && k.Good() && Joins(s) && Placed(k, to)
      && LS.WhileStatement(k.cx.locals, s, to, em) == Some(later)
    requires Within(k, later) && At(k, em, w, c)
    ensures Ran(k, to, em, later, Exec(k.cx, s, w, fuel), fuel, c, n, c')
    decreases fuel, s, 2
  {
    hide Step, Related, Run, LS.Extends, Find, Within, Reaches, At, Keeps, Setting.Good, LS.Statement;
    hide LS.WhileStatement, Goes, Placed;
    hide LS.Condition, ConditionJoins, Exec, Joins, Ran, LS.Close, LS.Fork;
    var head, test, fork, body, inner := WhileIs(k, s, to, em, later);
    var c1 := EntersLoop(k, em, 3, em.nextLabel, w, c);
    var n2, c2 := SimWhileTurns(k, s, to, em, later, head, test, fork, body, inner, w, c1, fuel);
    ThenRan(k, to, em, head, later, Exec(k.cx, s, w, fuel), fuel, c, 1, c1, fuel, n2, c2);
    n, c' := 1 + n2, c2;
  }

  /** From the loop's condition block on. */
  lemma {:induction false} SimWhileTurns(k: Setting, s: Stmt, to: LS.Targets, em: Emitter, later: Emitter,
                                         head: Emitter, test: LS.Lowered,
                                         fork: Emitter, body: Emitter, inner: LS.Targets,
                                           w: World, c: Config, fuel: nat)
    returns (n: nat, c': Config)
    requires k.Good() && Joins(s) && WhileParts(k, s, to, em, later, head, test, fork, body, inner) && At(k, head, w, c)
    ensures Ran(k, to, head, later, Exec(k.cx, s, w, fuel), fuel, c, n, c')
    decreases fuel, s, 1
  {
    hide Step, Related, Run, LS.Extends, Find, Within, Reaches, At, Keeps, Setting.Good, LS.Statement, Goes;
    hide LS.Condition, ConditionJoins, Eval, Placed;
    var m := em.nextLabel;
    if fuel == 0 {
      Waits(k, head, w, c);
      n, c' := 0, c;
    } else {
      var tested := Eval(k.cx, s.condition, w);
      var n1, c1 := SimCondition(k, s.condition, head, w, c);
      var b := k.cx.ops.Truthy(tested.value);
      var c2 := SimFork(k, test.operand, b, m + 1, m + 2, test.em, body.Put(Br(m)), tested.world, c1);
      Then(k, head, c, n1, c1, test.em, 1, c2);
      if !b {
        n, c' := n1 + 1, c2;
        Finished(k, to, head, later, tested.world, fuel, c, n, c');
      } else {
        var r := Exec(k.cx, s.body, tested.world, fuel);
        var n3, c3 := SimStatement(k, s.body, inner, fork, body, tested.world, c2, fuel);
        if r.Done? && (r.outcome.Normal? || r.outcome.Continued?) {
          var n4, c4 := SimTurn(k, inner, fork, body, m, m + 2, em.Labels(3).Put(Br(m)), r, fuel, c2, n3, c3);
          Then(k, head, c, n1 + 1, c2, fork, n4, c4);
          var n5, c5 := SimWhileTurns(k, s, to, em, later, head, test, fork, body, inner, r.world, c4, fuel - 1);
          SelfExtends(head);
          ThenRan(k, to, head, head, later, Exec(k.cx, s, r.world, fuel - 1), fuel,
                  c, n1 + 1 + n4, c4, fuel - 1, n5, c5);
          n, c' := n1 + 1 + n4 + n5, c5;
        } else {
          assert Exec(k.cx, s, w, fuel) == AfterBody(k.cx, s, r, fuel - 1);
          SimLoopEnd(k, to, inner, fork, body, m + 2, body.Put(Br(m)), later, r, fuel, c2, n3, c3);
          ThenRan(k, to, head, fork, later, Exec(k.cx, s, w, fuel), fuel, c, n1 + 1, c2, fuel, n3, c3);
          n, c' := n1 + 1 + n3, c3;
        }
      }
    }
  }

  ghost predicate DoParts(k: Setting, s: Stmt, to: LS.Targets, em: Emitter, later: Emitter, head: Emitter,
                          body: Emitter, step: Emitter,
                          test: LS.Lowered, inner: LS.Targets) {
    var m := em.nextLabel;
    && s.DoWhile? && head == LS.Close(m, m, em.Labels(3)) && inner == LS.Targets(Some(m + 2), Some(m + 1), to.exit)
    && LS.Statement(k.cx.locals, s.body, inner, head) == Some(body) && step == LS.Close(m + 1, m + 1, body)
    && test == LS.Condition(k.cx.locals, s.condition, step) && later == LS.Split(test.operand, m, m + 2, test.em)
    && Within(k, later) && Within(k, test.em) && Within(k, step) && Within(k, body) && Within(k, head)
    && LS.Extends(head, body) && LS.Extends(head, step) && LS.Extends(em, head) && Placed(k, inner)
  }

  lemma DoIs(k: Setting, s: Stmt, to: LS.Targets, em: Emitter, later: Emitter)
    returns (head: Emitter, body: Emitter, step: Emitter, test: LS.Lowered, inner: LS.Targets)
    requires s.DoWhile? && k.Good() && Placed(k, to) && LS.DoStatement(k.cx.locals, s, to, em) == Some(later)
      && Within(k, later)
    ensures DoParts(k, s, to, em, later, head, body, step, test, inner)
  {
    hide LS.Extends, Find, Within, Setting.Good, LS.Statement, LS.Condition, LS.Close, LS.Emitter.Put;
    var m := em.nextLabel;
    head := LS.Close(m, m, em.Labels(3));
    inner := LS.Targets(Some(m + 2), Some(m + 1), to.exit);
    body := LS.Statement(k.cx.locals, s.body, inner, head).value;
    step := LS.Close(m + 1, m + 1, body);
    test := LS.Condition(k.cx.locals, s.condition, step);
    var split := test.em.Put(CondBr(test.operand, m, m + 2));
    MarkedAt(k, split, m + 2);
    Fetch(k, split, Mark(m + 2));
    Fetch(k, test.em, CondBr(test.operand, m, m + 2));
    Earlier(k, step, test.em);
    ClosedAt(k, m + 1, m + 1, body);
    Earlier(k, head, body);
    ClosedAt(k, m, m, em.Labels(3));
    Grows(head, body, step);
    Uncounted(k, em, 3, 0);
    Grows(em, em.Labels(3), head);
  }

  lemma {:induction false} SimDo(k: Setting, s: Stmt, to: LS.Targets, em: Emitter, later: Emitter,
                                 w: World, c: Config, fuel: nat)
    returns (n: nat, c': Config)
    requires s.DoWhile? && k.Good() && Joins(s) && Placed(k, to)
      && LS.DoStatement(k.cx.locals, s, to, em) == Some(later)
    requires Within(k, later) && At(k, em, w, c)
    ensures Ran(k, to, em, later, Exec(k.cx, s, w, fuel), fuel, c, n, c')
    decreases fuel, s, 2
  {
    hide Step, Related, Run, LS.Extends, Find, Within, Reaches, At, Keeps, Setting.Good, LS.Statement, LS.DoStatement;
    hide Goes, Placed;
    hide LS.Condition, ConditionJoins, Exec, Joins, Ran, LS.Close, LS.Split;
    var head, body, step, test, inner := DoIs(k, s, to, em, later);
    var c1 := EntersLoop(k, em, 3, em.nextLabel, w, c);
    var n2, c2 := SimDoTurns(k, s, to, em, later, head, body, step, test, inner, w, c1, fuel);
    ThenRan(k, to, em, head, later, Exec(k.cx, s, w, fuel), fuel, c, 1, c1, fuel, n2, c2);
    n, c' := 1 + n2, c2;
  }

  /** From the loop's body block on. */
  lemma {:induction false} SimDoTurns(k: Setting, s: Stmt, to: LS.Targets, em: Emitter, later: Emitter,
                                      head: Emitter, body: Emitter,
                                      step: Emitter, test: LS.Lowered, inner: LS.Targets,
                                        w: World, c: Config, fuel: nat)
    returns (n: nat, c': Config)
    requires k.Good() && Joins(s) && DoParts(k, s, to, em, later, head, body, step, test, inner) && At(k, head, w, c)
    ensures Ran(k, to, head, later, Exec(k.cx, s, w, fuel), fuel, c, n, c')
    decreases fuel, s, 1
  {
    hide Step, Related, Run, LS.Extends, Find, Within, Reaches, At, Keeps, Setting.Good, LS.Statement, Goes;
    hide LS.Condition, ConditionJoins, Eval, Placed;
    var m := em.nextLabel;
    if fuel == 0 {
      Waits(k, head, w, c);
      n, c' := 0, c;
    } else {
      var r := Exec(k.cx, s.body, w, fuel);
      var n1, c1 := SimStatement(k, s.body, inner, head, body, w, c, fuel);
      if r.Done? && (r.outcome.Normal? || r.outcome.Continued?) {
        var n2, c2 := SimTurn(k, inner, head, body, m + 1, m + 1, body.Put(Br(m + 1)), r, fuel, c, n1, c1);
        var tested := Eval(k.cx, s.condition, r.world);
        var n3, c3 := SimCondition(k, s.condition, step, r.world, c2);
        Then(k, head, c, n2, c2, step, n3, c3);
        var b := k.cx.ops.Truthy(tested.value);
        var c4 := SimSplit(k, test.operand, b, m, m + 2, test.em, em.Labels(3).Put(Br(m)), tested.world, c3);
        Grows(head, step, test.em);
        Then(k, head, c, n2 + n3, c3, test.em, 1, c4);
        if b {
          var n5, c5 := SimDoTurns(k, s, to, em, later, head, body, step, test, inner, tested.world, c4, fuel - 1);
          SelfExtends(head);
          ThenRan(k, to, head, head, later, Exec(k.cx, s, tested.world, fuel - 1), fuel,
                  c, n2 + n3 + 1, c4, fuel - 1, n5, c5);
          n, c' := n2 + n3 + 1 + n5, c5;
        } else {
          n, c' := n2 + n3 + 1, c4;
          Finished(k, to, head, later, tested.world, fuel, c, n, c');
        }
      } else {
        SimLoopEnd(k, to, inner, head, body, m + 2, test.em.Put(CondBr(test.operand, m, m + 2)),
                   later, r, fuel, c, n1, c1);
        n, c' := n1, c1;
      }
    }
  }

  /** A conditional branch back to the block `l`, or into the block `m` that follows. */
  lemma SimSplit(k: Setting, o: Operand, b: bool, l: Label, m: Label, tested: Emitter, head: Emitter,
                 w: World, c: Config) returns (c': Config)
    requires k.Good() && At(k, tested, w, c) && Resolve(o, c.temps) == Some(B(b))
    requires Within(k, LS.Split(o, l, m, tested)) && Within(k, head.Put(Mark(l)))
    ensures Reaches(k, c, 1, c') && Keeps(c, c', tested.nextTemp)
    ensures At(k, if b then head.Put(Mark(l)) else LS.Split(o, l, m, tested), w, c')
  {
    hide Step, Related, Run, LS.Extends, Find, Within, Reaches, Setting.Good;
    Fetch(k, tested.Put(CondBr(o, l, m)), Mark(m));
    c' := Branches(k, tested, o, b, l, m, if b then head else tested.Put(CondBr(o, l, m)), w, c);
  }

  ghost predicate ForParts(k: Setting, s: Stmt, to: LS.Targets, em: Emitter, later: Emitter,
                           head: Emitter, test: LS.Lowered,
                           fork: Emitter, body: Emitter, step: Emitter, updated: Emitter, inner: LS.Targets) {
    var m := em.nextLabel;
    && s.For? && head == LS.Close(m, m, em.Labels(4)) && test == LS.ForTest(k.cx.locals, s.test, head)
    && fork == LS.Fork(test.operand, m + 1, m + 3, test.em) && inner == LS.Targets(Some(m + 3), Some(m + 2), to.exit)
    && LS.Statement(k.cx.locals, s.body, inner, fork) == Some(body) && step == LS.Close(m + 2, m + 2, body)
    && updated == LS.Each(k.cx.locals, s.update, step) && later == LS.Close(m, m + 3, updated)
    && Within(k, later) && Within(k, updated.Put(Br(m))) && Within(k, updated) && Within(k, step)
      && Within(k, body) && Within(k, fork)
    && Within(k, test.em) && Within(k, head)
    && LS.Extends(head, fork) && LS.Extends(head, step) && LS.Extends(fork, body) && LS.Extends(fork, step)
      && LS.Extends(em, head)
    && Placed(k, inner)
  }

  lemma ForIs(k: Setting, s: Stmt, to: LS.Targets, em: Emitter, later: Emitter)
    returns (em1: Emitter, head: Emitter, test: LS.Lowered, fork: Emitter, body: Emitter, step: Emitter,
             updated: Emitter, inner: LS.Targets)
    requires s.For? && k.Good() && Placed(k, to) && LS.ForStatement(k.cx.locals, s, to, em) == Some(later)
      && Within(k, later)
    ensures em1 == LS.Each(k.cx.locals, s.init, em) && Within(k, em1) && LS.Extends(em, head)
    ensures ForParts(k, s, to, em1, later, head, test, fork, body, step, updated, inner)
  {
    hide LS.Extends, Find, Within, Setting.Good, LS.Statement, LS.ForTest, LS.Each, LS.Close, LS.Fork;
    var ls := k.cx.locals;
    em1 := LS.Each(ls, s.init, em);
    var m := em1.nextLabel;
    head := LS.Close(m, m, em1.Labels(4));
    test := LS.ForTest(ls, s.test, head);
    fork := LS.Fork(test.operand, m + 1, m + 3, test.em);
    inner := LS.Targets(Some(m + 3), Some(m + 2), to.exit);
    body := LS.Statement(ls, s.body, inner, fork).value;
    step := LS.Close(m + 2, m + 2, body);
    updated := LS.Each(ls, s.update, step);
    ClosedAt(k, m, m + 3, updated);
    Earlier(k, step, updated);
    ClosedAt(k, m + 2, m + 2, body);
    Earlier(k, fork, body);
    Earlier(k, test.em, fork);
    Earlier(k, head, test.em);
    ClosedAt(k, m, m, em1.Labels(4));
    Uncounted(k, em1, 4, 0);
    Grows(head, test.em, fork);
    Grows(fork, body, step);
    Grows(head, fork, step);
    Grows(em1, em1.Labels(4), head);
    Grows(em, em1, head);
  }

  lemma {:induction false} SimFor(k: Setting, s: Stmt, to: LS.Targets, em: Emitter, later: Emitter,
                                  w: World, c: Config, fuel: nat)
    returns (n: nat, c': Config)
    requires s.For? && k.Good() && Joins(s) && Placed(k, to) && LS.ForStatement(k.cx.locals, s, to, em) == Some(later)
    requires Within(k, later) && At(k, em, w, c)
    ensures Ran(k, to, em, later, Exec(k.cx, s, w, fuel), fuel, c, n, c')
    decreases fuel, s, 2
  {
    hide Step, Related, Run, LS.Extends, Find, Within, Reaches, At, Keeps, Setting.Good, LS.Statement, LS.ForStatement;
    hide Goes, Placed;
    hide LS.Close, LS.Fork, ConditionJoins, ExecFor, EvalAll, LS.Each, AllJoin, LS.ForTest, Ran;
    var em1, head, test, fork, body, step, updated, inner := ForIs(k, s, to, em, later);
    var w1 := EvalAll(k.cx, s.init, w);
    var n1, c1 := SimEach(k, s.init, em, w, c);
    var c2 := EntersLoop(k, em1, 4, em1.nextLabel, w1, c1);
    Then(k, em, c, n1, c1, em1, 1, c2);
    var n3, c3 := SimForTurns(k, s, to, em1, later, head, test, fork, body, step, updated, inner, w1, c2, fuel);
    ThenRan(k, to, em, head, later, ExecFor(k.cx, s, w1, fuel), fuel, c, n1 + 1, c2, fuel, n3, c3);
    n, c' := n1 + 1 + n3, c3;
  }

  /** The condition of a `for` loop, which may be absent. */
  lemma SimForTest(k: Setting, test: Option<Expr>, em: Emitter, w: World, c: Config) returns (n: nat, c': Config)
    requires k.Good() && (test.Some? ==> ConditionJoins(test.value)) && Within(k, LS.ForTest(k.cx.locals, test, em).em)
      && At(k, em, w, c)
    ensures
      var v := if test.None? then Evaluated(ONE, w) else Eval(k.cx, test.value, w);
      Computed(k, em, LS.ForTest(k.cx.locals, test, em), v.world, B(test.None? || k.cx.ops.Truthy(v.value)), c, n, c')
  {
    hide Step, Related, Run, LS.Extends, Find, Within, Reaches, At, Keeps, Setting.Good, LS.Condition, ConditionJoins;
    hide Eval;
    if test.None? {
      n, c' := SimNothing(k, em, BoolLiteral(true), B(true), w, c);
    } else {
      n, c' := SimCondition(k, test.value, em, w, c);
    }
  }

  lemma ForTurn(cx: Context, s: Stmt, w: World, fuel: nat)
    requires s.For?
    ensures fuel == 0 ==> ExecFor(cx, s, w, fuel) == OutOfFuel(w)
    ensures fuel > 0 ==>
      var tested := if s.test.None? then Evaluated(ONE, w) else Eval(cx, s.test.value, w);
      var r := Exec(cx, s.body, tested.world, fuel);
      ExecFor(cx, s, w, fuel) ==
        if s.test.Some? && !cx.ops.Truthy(tested.value) then Done(Normal, tested.world)
        else if r.OutOfFuel? || r.outcome.Left? then r
        else if r.outcome.Broke? then Done(Normal, r.world)
        else ExecFor(cx, s, EvalAll(cx, s.update, r.world), fuel - 1)
  {
    hide Eval, EvalAll, Exec;
  }

  /** From the loop's condition block on. */
  lemma {:induction false} SimForTurns(k: Setting, s: Stmt, to: LS.Targets, em: Emitter, later: Emitter,
                                       head: Emitter, test: LS.Lowered,
                                       fork: Emitter, body: Emitter, step: Emitter, updated: Emitter, inner: LS.Targets,
                                       w: World, c: Config, fuel: nat)
    returns (n: nat, c': Config)
    requires k.Good() && Joins(s) && ForParts(k, s, to, em, later, head, test, fork, body, step, updated, inner)
      && At(k, head, w, c)
    ensures Ran(k, to, head, later, ExecFor(k.cx, s, w, fuel), fuel, c, n, c')
    decreases fuel, s, 1
  {
    hide Step, Related, Run, LS.Extends, Find, Within, Reaches, At, Keeps, Setting.Good, LS.Statement, Goes;
    hide LS.Condition, ConditionJoins, Eval, Placed;
    hide LS.ForTest, EvalAll, LS.Each, AllJoin, Exec, ExecFor, AfterBody, LS.Fork;
    ForTurn(k.cx, s, w, fuel);
    var m := em.nextLabel;
    if fuel == 0 {
      Waits(k, head, w, c);
      n, c' := 0, c;
    } else {
      var tested := if s.test.None? then Evaluated(ONE, w) else Eval(k.cx, s.test.value, w);
      var b := s.test.None? || k.cx.ops.Truthy(tested.value);
      var n1, c1 := SimForTest(k, s.test, head, w, c);
      var c2 := SimFork(k, test.operand, b, m + 1, m + 3, test.em, updated.Put(Br(m)), tested.world, c1);
      Then(k, head, c, n1, c1, test.em, 1, c2);
      if !b {
        n, c' := n1 + 1, c2;
        Finished(k, to, head, later, tested.world, fuel, c, n, c');
      } else {
        var r := Exec(k.cx, s.body, tested.world, fuel);
        var n3, c3 := SimStatement(k, s.body, inner, fork, body, tested.world, c2, fuel);
        if r.Done? && (r.outcome.Normal? || r.outcome.Continued?) {
          var n4, c4 := SimTurn(k, inner, fork, body, m + 2, m + 2, body.Put(Br(m + 2)), r, fuel, c2, n3, c3);
          Then(k, head, c, n1 + 1, c2, fork, n4, c4);
          var n5, c5 := SimAgain(k, s, em, head, step, updated, m, r.world, c4);
          Then(k, head, c, n1 + 1 + n4, c4, step, n5, c5);
          var n6, c6 := SimForTurns(k, s, to, em, later, head, test, fork, body, step, updated, inner,
                                    EvalAll(k.cx, s.update, r.world), c5, fuel - 1);
          SelfExtends(head);
          ThenRan(k, to, head, head, later, ExecFor(k.cx, s, EvalAll(k.cx, s.update, r.world), fuel - 1),
                  fuel, c, n1 + 1 + n4 + n5, c5,
                  fuel - 1, n6, c6);
          n, c' := n1 + 1 + n4 + n5 + n6, c6;
        } else {
          SimLoopEnd(k, to, inner, fork, body, m + 3, updated.Put(Br(m)), later, r, fuel, c2, n3, c3);
          ThenRan(k, to, head, fork, later, ExecFor(k.cx, s, w, fuel), fuel, c, n1 + 1, c2, fuel, n3, c3);
          n, c' := n1 + 1 + n3, c3;
        }
      }
    }
  }

  /** The update of a `for` loop and the branch back to its condition. */
  lemma SimAgain(k: Setting, s: Stmt, em: Emitter, head: Emitter, step: Emitter, updated: Emitter,
                 m: Label, w: World, c: Config)
    returns (n: nat, c': Config)
    requires s.For? && k.Good() && AllJoin(s.update) && updated == LS.Each(k.cx.locals, s.update, step)
      && head == LS.Close(m, m, em.Labels(4))
    requires Within(k, updated.Put(Br(m))) && Within(k, updated) && Within(k, head) && At(k, step, w, c)
    ensures Reaches(k, c, n, c') && Keeps(c, c', step.nextTemp) && At(k, head, EvalAll(k.cx, s.update, w), c')
  {
    hide Step, Related, Run, LS.Extends, Find, Within, Reaches, At, Keeps, Setting.Good, EvalAll, LS.Each, AllJoin;
    var n1, c1 := SimEach(k, s.update, step, w, c);
    c' := Jumps(k, updated, m, em.Labels(4).Put(Br(m)), EvalAll(k.cx, s.update, w), c1);
    KeepsAll(c1, c', updated.nextTemp);
    Then(k, step, c, n1, c1, updated, 1, c');
    n := n1 + 1;
  }
}

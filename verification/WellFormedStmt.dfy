/** The invariant of the emitter over statements, record items and whole phases; and which
    statements the lowering accepts. */
module WellFormedStmt {
  import opened Options
  import opened Syntax
  import opened Machine
  import opened WellFormed
  import LS = LoweringSpec

  // ----- Accepted programs -----

  /** The semantic check: break and continue inside a loop, next and nextfile in a record action. */
  predicate Accepted(s: Stmt, inRecordAction: bool, loopDepth: nat)
    decreases s
  {
    match s
    case BreakStmt => loopDepth > 0
    case ContinueStmt => loopDepth > 0
    case NextStmt => inRecordAction
    case NextFileStmt => inRecordAction
    case Block(ss) => forall t :: t in ss ==> Accepted(t, inRecordAction, loopDepth)
    case If(_, t, e) => Accepted(t, inRecordAction, loopDepth)
      && (e.Some? ==> Accepted(e.value, inRecordAction, loopDepth))
    case While(_, body) => Accepted(body, inRecordAction, loopDepth + 1)
    case DoWhile(body, _) => Accepted(body, inRecordAction, loopDepth + 1)
    case For(_, _, _, body) => Accepted(body, inRecordAction, loopDepth + 1)
    case AssignStmt(_, _, _) => true
    case ExprStmt(_) => true
    case Print(_) => true
    case ExitStmt(_) => true
  }

  /** Inside a loop both loop labels are set, outside neither is. */
  ghost predicate LabelsFor(to: LS.Targets, loopDepth: nat) {
    (to.onBreak.Some? <==> loopDepth > 0) && (to.onContinue.Some? <==> loopDepth > 0)
  }

  /** In a record action the check accepts exactly what the lowering can lower; elsewhere it
      accepts no more. */
  lemma {:induction false} AcceptedIsLowered(locals: set<string>, s: Stmt, to: LS.Targets, em: Emitter,
                                             inRecordAction: bool, loopDepth: nat)
    requires LabelsFor(to, loopDepth)
    ensures Accepted(s, inRecordAction, loopDepth) ==> LS.Statement(locals, s, to, em).Some?
    ensures inRecordAction && LS.Statement(locals, s, to, em).Some? ==> Accepted(s, inRecordAction, loopDepth)
    decreases s, 1
  {
    hide LS.Condition, LS.Number, LS.Extends, LS.Fork, LS.Close, LS.Each, LS.Assignment, LS.Exit, LS.PrintArguments;
    hide LS.IfStatement;
    match s
    case Block(ss) => AllAcceptedIsLowered(locals, ss, to, em, inRecordAction, loopDepth);
    case If(_, _, _) => IfAcceptedIsLowered(locals, s, to, em, inRecordAction, loopDepth);
    case While(c, body) =>
      assert LS.Statement(locals, s, to, em) == LS.WhileStatement(locals, s, to, em);
      var n := em.nextLabel;
      var test := LS.Condition(locals, c, LS.Close(n, n, em.Labels(3)));
      AcceptedIsLowered(locals, body, LS.Targets(Some(n + 2), Some(n), to.exit),
                        LS.Fork(test.operand, n + 1, n + 2, test.em),
                        inRecordAction, loopDepth + 1);
    case DoWhile(body, c) =>
      assert LS.Statement(locals, s, to, em) == LS.DoStatement(locals, s, to, em);
      var n := em.nextLabel;
      AcceptedIsLowered(locals, body, LS.Targets(Some(n + 2), Some(n + 1), to.exit), LS.Close(n, n, em.Labels(3)),
                        inRecordAction, loopDepth + 1);
    case For(init, test, update, body) =>
      assert LS.Statement(locals, s, to, em) == LS.ForStatement(locals, s, to, em);
      var em0 := LS.Each(locals, init, em);
      var n := em0.nextLabel;
      var c := LS.ForTest(locals, test, LS.Close(n, n, em0.Labels(4)));
      AcceptedIsLowered(locals, body, LS.Targets(Some(n + 3), Some(n + 2), to.exit),
                        LS.Fork(c.operand, n + 1, n + 3, c.em),
                        inRecordAction, loopDepth + 1);
    case _ =>
  }

  lemma {:induction false} IfAcceptedIsLowered(locals: set<string>, s: Stmt, to: LS.Targets, em: Emitter,
                                               inRecordAction: bool, loopDepth: nat)
    requires s.If? && LabelsFor(to, loopDepth)
    ensures Accepted(s, inRecordAction, loopDepth) ==> LS.IfStatement(locals, s, to, em).Some?
    ensures inRecordAction && LS.IfStatement(locals, s, to, em).Some? ==> Accepted(s, inRecordAction, loopDepth)
    decreases s, 0
  {
    hide LS.Condition, LS.Extends, LS.Fork, LS.Close, LS.Statement, LabelsFor;
    var n, both := em.nextLabel, s.elseBranch.Some?;
    var test := LS.Condition(locals, s.condition, em.Labels(if both then 3 else 2));
    var fork := LS.Fork(test.operand, n, n + 1, test.em);
    var em1 := LS.Statement(locals, s.thenBranch, to, fork);
    AcceptedIsLowered(locals, s.thenBranch, to, fork, inRecordAction, loopDepth);
    if both && em1.Some? {
      AcceptedIsLowered(locals, s.elseBranch.value, to, LS.Close(n + 2, n + 1, em1.value), inRecordAction, loopDepth);
    }
  }

  lemma {:induction false} AllAcceptedIsLowered(locals: set<string>, ss: seq<Stmt>, to: LS.Targets, em: Emitter,
                                                inRecordAction: bool, loopDepth: nat)
    requires LabelsFor(to, loopDepth)
    ensures (forall t :: t in ss ==> Accepted(t, inRecordAction, loopDepth)) ==> LS.Statements(locals, ss, to, em).Some?
    ensures inRecordAction && LS.Statements(locals, ss, to, em).Some? ==> forall t :: t in ss ==>
      Accepted(t, inRecordAction, loopDepth)
    decreases ss, 0
  {
    if ss != [] {
      assert forall t :: t in ss <==> t == ss[0] || t in ss[1..];
      AcceptedIsLowered(locals, ss[0], to, em, inRecordAction, loopDepth);
      if LS.Statement(locals, ss[0], to, em).Some? {
        AllAcceptedIsLowered(locals, ss[1..], to, LS.Statement(locals, ss[0], to, em).value, inRecordAction, loopDepth);
      }
    }
  }

  // ----- Statements -----

  /** The labels a statement may leave through. */
  function Outside(to: LS.Targets): set<Label> {
    {to.exit} + (if to.onBreak.Some? then {to.onBreak.value}
                 else {}) + (if to.onContinue.Some? then {to.onContinue.value} else {})
  }

  lemma {:induction false} LowersEach(locals: set<string>, es: seq<Expr>, em: Emitter, l: Label, t: Temp)
    ensures Lowers(locals, em, LS.Each(locals, es, em), l, t, {})
    decreases es
  {
    hide Lowers, LS.Extends, LS.Number;
    LowersSelf(locals, em, l, t);
    if es != [] {
      var r := LS.Number(locals, es[0], em);
      LowersNumber(locals, es[0], em, l, t);
      LowersEach(locals, es[1..], r.em, l, t);
      LowersThen(locals, em, r.em, LS.Each(locals, es, em), l, t, {}, {});
    }
  }

  lemma {:induction false} LowersPrint(locals: set<string>, es: seq<Expr>, index: nat, em: Emitter, l: Label, t: Temp)
    requires index <= |es|
    ensures Lowers(locals, em, LS.PrintArguments(locals, es, index, em), l, t, {})
    decreases |es| - index
  {
    hide Lowers, LS.Extends, LS.Number;
    if index == |es| {
      LowersPlain(locals, em, PrintEnd, l, t);
    } else {
      var em1 := if index > 0 then em.Put(PrintSeparator) else em;
      var r := LS.Number(locals, es[index], em1);
      var em2 := r.em.Put(PrintNumber(r.operand));
      LowersSelf(locals, em, l, t);
      LowersPlain(locals, em, PrintSeparator, l, t);
      LowersNumber(locals, es[index], em1, l, t);
      LowersPlain(locals, r.em, PrintNumber(r.operand), l, t);
      LowersPrint(locals, es, index + 1, em2, l, t);
      LowersThen(locals, em, em1, r.em, l, t, {}, {});
      LowersThen(locals, em, r.em, em2, l, t, {}, {});
      LowersThen(locals, em, em2, LS.PrintArguments(locals, es, index, em), l, t, {}, {});
    }
  }

  lemma LowersDefaultPrint(locals: set<string>, em: Emitter, l: Label, t: Temp)
    ensures Lowers(locals, em, LS.DefaultPrint(em), l, t, {})
  {
    hide Lowers;
    var r := LS.Last(LoadRecord(em.nextTemp), em);
    LowersLast(locals, em, LoadRecord(em.nextTemp), l, t);
    LowersPlain(locals, r.em, PrintText(r.operand), l, t);
    LowersThen(locals, em, r.em, LS.DefaultPrint(em), l, t, {}, {});
  }

  lemma LowersAssignment(locals: set<string>, x: string, aop: AssignOp, value: Expr, em: Emitter, l: Label, t: Temp)
    ensures Lowers(locals, em, LS.Assignment(locals, x, aop, value, em), l, t, {})
  {
    hide Lowers, LS.Extends, LS.Number, LS.VariableAddress, LS.Combine, LS.Last;
    var a := LS.VariableAddress(locals, x, em);
    var r := LS.Number(locals, value, a.em);
    LowersAddress(locals, x, em, l, t);
    LowersNumber(locals, value, a.em, l, t);
    LowersThen(locals, em, a.em, r.em, l, t, {}, {});
    if aop.Plain? {
      LowersPlain(locals, r.em, Store(r.operand, a.address), l, t);
      LowersThen(locals, em, r.em, LS.Assignment(locals, x, aop, value, em), l, t, {}, {});
    } else {
      var loaded := LS.Last(Load(r.em.nextTemp, a.address), r.em);
      var v := LS.Combine(aop.op, loaded.operand, r.operand, loaded.em);
      LowersLast(locals, r.em, Load(r.em.nextTemp, a.address), l, t);
      LowersArith(locals, aop.op, loaded.operand, r.operand, loaded.em, l, t);
      LowersPlain(locals, v.em, Store(v.operand, a.address), l, t);
      LowersThen(locals, em, r.em, loaded.em, l, t, {}, {});
      LowersThen(locals, em, loaded.em, v.em, l, t, {}, {});
      LowersThen(locals, em, v.em, LS.Assignment(locals, x, aop, value, em), l, t, {}, {});
    }
  }

  lemma LowersExit(locals: set<string>, status: Option<Expr>, em: Emitter, l: Label, t: Temp)
    ensures Lowers(locals, em, LS.Exit(locals, status, em), l, t, {})
  {
    hide Lowers, LS.Extends, LS.Number, LS.Last;
    if status.None? {
      LowersPlain(locals, em, RequestExit(IntLiteral(0)), l, t);
    } else {
      var r := LS.Number(locals, status.value, em);
      var i := LS.Last(DoubleToInt(r.em.nextTemp, r.operand), r.em);
      LowersNumber(locals, status.value, em, l, t);
      LowersLast(locals, r.em, DoubleToInt(r.em.nextTemp, r.operand), l, t);
      LowersPlain(locals, i.em, RequestExit(i.operand), l, t);
      LowersThen(locals, em, r.em, i.em, l, t, {}, {});
      LowersThen(locals, em, i.em, LS.Exit(locals, status, em), l, t, {}, {});
    }
  }

  lemma {:induction false} LowersStatement(locals: set<string>, s: Stmt, to: LS.Targets, em: Emitter, l: Label, t: Temp)
    requires LS.Statement(locals, s, to, em).Some?
    ensures Lowers(locals, em, LS.Statement(locals, s, to, em).value, l, t, Outside(to))
    decreases s, 1
  {
    hide Lowers, LS.Extends, LS.Number, LS.Assignment, LS.Exit, LS.IfStatement, LS.WhileStatement, LS.DoStatement;
    hide LS.ForStatement;
    var later := LS.Statement(locals, s, to, em).value;
    match s
    case AssignStmt(x, aop, value) =>
      LowersAssignment(locals, x, aop, value, em, l, t);
      Widen(locals, em, later, l, t, {}, Outside(to));
    case ExprStmt(e) =>
      LowersNumber(locals, e, em, l, t);
      Widen(locals, em, later, l, t, {}, Outside(to));
    case Print(es) =>
      if es == [] { LowersDefaultPrint(locals, em, l, t); } else { LowersPrint(locals, es, 0, em, l, t); }
      Widen(locals, em, later, l, t, {}, Outside(to));
    case Block(ss) => LowersStatements(locals, ss, to, em, l, t);
    case If(_, _, _) => LowersIf(locals, s, to, em, l, t);
    case While(_, _) => LowersWhile(locals, s, to, em, l, t);
    case DoWhile(_, _) => LowersDo(locals, s, to, em, l, t);
    case For(_, _, _, _) => LowersFor(locals, s, to, em, l, t);
    case BreakStmt =>
      LowersBr(locals, em, to.onBreak.value, l, t);
      Widen(locals, em, later, l, t, {to.onBreak.value}, Outside(to));
    case ContinueStmt =>
      LowersBr(locals, em, to.onContinue.value, l, t);
      Widen(locals, em, later, l, t, {to.onContinue.value}, Outside(to));
    case NextStmt =>
      LowersBr(locals, em, to.exit, l, t);
      Widen(locals, em, later, l, t, {to.exit}, Outside(to));
    case NextFileStmt =>
      LowersPlain(locals, em, CallNextFile, l, t);
      Widen(locals, em, em.Put(CallNextFile), l, t, {}, Outside(to));
      LowersBr(locals, em.Put(CallNextFile), to.exit, l, t);
      LowersThen(locals, em, em.Put(CallNextFile), later, l, t, Outside(to), {to.exit});
    case ExitStmt(status) =>
      var mid := LS.Exit(locals, status, em);
      LowersExit(locals, status, em, l, t);
      Widen(locals, em, mid, l, t, {}, Outside(to));
      LowersBr(locals, mid, to.exit, l, t);
      LowersThen(locals, em, mid, later, l, t, Outside(to), {to.exit});
  }

  lemma Widen(locals: set<string>, em: Emitter, later: Emitter, l: Label, t: Temp, few: set<Label>, many: set<Label>)
    requires Lowers(locals, em, later, l, t, few) && few <= many
    ensures Lowers(locals, em, later, l, t, many)
  {
  }

  lemma {:induction false} LowersStatements(locals: set<string>, ss: seq<Stmt>, to: LS.Targets,
                                            em: Emitter, l: Label, t: Temp)
    requires LS.Statements(locals, ss, to, em).Some?
    ensures Lowers(locals, em, LS.Statements(locals, ss, to, em).value, l, t, Outside(to))
    decreases ss, 0
  {
    hide Lowers, LS.Extends, LS.Statement;
    if ss == [] {
      LowersSelf(locals, em, l, t);
      Widen(locals, em, em, l, t, {}, Outside(to));
    } else {
      var mid := LS.Statement(locals, ss[0], to, em).value;
      LowersStatement(locals, ss[0], to, em, l, t);
      LowersStatements(locals, ss[1..], to, mid, l, t);
      LowersThen(locals, em, mid, LS.Statements(locals, ss, to, em).value, l, t, Outside(to), Outside(to));
    }
  }

  lemma {:induction false} LowersIf(locals: set<string>, s: Stmt, to: LS.Targets, em: Emitter, l: Label, t: Temp)
    requires s.If? && LS.IfStatement(locals, s, to, em).Some?
    ensures Lowers(locals, em, LS.IfStatement(locals, s, to, em).value, l, t, Outside(to))
    decreases s, 0
  {
    hide Owes, Lowers, Outside, LS.Emitter.Put, LS.Extends, LS.Statement, LS.Condition;
    var n, out := em.nextLabel, Outside(to);
    LowersSelf(locals, em, l, t);
    Widen(locals, em, em, l, t, {}, out);
    OwesNothing(locals, em, em, {}, {}, l, t, out);
    if s.elseBranch.None? {
      var test, fork := LowersTest(locals, em, em, s.condition, 2, n, n + 1, {n, n + 1}, {n + 1}, l, t, out);
      var em1 := LS.Statement(locals, s.thenBranch, to, fork).value;
      LowersStatement(locals, s.thenBranch, to, fork, l, t);
      OwesThen(locals, em, fork, em1, {n + 1}, {}, l, t, out, out);
      OwesBlock(locals, em, em1, Br(n + 1), n + 1, {n + 1}, {}, {}, l, t, out);
      OwesNothing(locals, em, LS.Close(n + 1, n + 1, em1), {}, {}, l, t, out);
    } else {
      var test, fork :=
          LowersTest(locals, em, em, s.condition, 3, n, n + 1, {n, n + 1, n + 2}, {n + 1, n + 2}, l, t, out);
      var em1 := LS.Statement(locals, s.thenBranch, to, fork).value;
      LowersStatement(locals, s.thenBranch, to, fork, l, t);
      OwesThen(locals, em, fork, em1, {n + 1, n + 2}, {}, l, t, out, out);
      OwesBlock(locals, em, em1, Br(n + 2), n + 1, {n + 1, n + 2}, {n + 2}, {}, l, t, out);
      var mid := LS.Close(n + 2, n + 1, em1);
      var em2 := LS.Statement(locals, s.elseBranch.value, to, mid).value;
      LowersStatement(locals, s.elseBranch.value, to, mid, l, t);
      OwesThen(locals, em, mid, em2, {n + 2}, {}, l, t, out, out);
      OwesBlock(locals, em, em2, Br(n + 2), n + 2, {n + 2}, {}, {}, l, t, out);
      OwesNothing(locals, em, LS.Close(n + 2, n + 2, em2), {}, {}, l, t, out);
    }
  }

  /** Labels taken, a condition, and the branch on it into the first of two blocks. */
  lemma LowersTest(locals: set<string>, em: Emitter, mid: Emitter, e: Expr, labels: nat, first: Label, second: Label,
                   had: set<Label>, owed: set<Label>,
                   l: Label, t: Temp, outside: set<Label>) returns (test: LS.Lowered, fork: Emitter)
    requires Owes(locals, em, mid, {}, {}, l, t, outside)
    requires l in had <==> mid.nextLabel <= l < mid.nextLabel + labels
    requires (l == first ==> l in had) && (l in owed <==> l in had && l != first) && (l == second ==> l in had)
    ensures test == LS.Condition(locals, e, mid.Labels(labels)) && fork == LS.Fork(test.operand, first, second, test.em)
    ensures Owes(locals, em, fork, owed, {}, l, t, outside) && em.nextLabel <= mid.nextLabel
      && mid.nextLabel + labels <= fork.nextLabel
  {
    hide Owes, Lowers, LS.Emitter.Put, LS.Extends, LS.Condition;
    assert mid.Temps(0).Labels(labels) == mid.Labels(labels);
    test := LS.Condition(locals, e, mid.Labels(labels));
    fork := LS.Fork(test.operand, first, second, test.em);
    OwesTaken(locals, em, mid, labels, 0, {}, had, {}, l, t, outside);
    LowersCondition(locals, e, mid.Labels(labels), l, t);
    OwesThen(locals, em, mid.Labels(labels), test.em, had, {}, l, t, outside, {});
    OwesBlock(locals, em, test.em, CondBr(test.operand, first, second), first, had, owed, {}, l, t, outside);
  }

  /** Labels taken and the first block of a loop begun. */
  lemma LowersHead(locals: set<string>, em: Emitter, mid: Emitter, labels: nat, had: set<Label>, owed: set<Label>,
                   l: Label, t: Temp, outside: set<Label>)
    returns (head: Emitter)
    requires Owes(locals, em, mid, {}, {}, l, t, outside) && labels > 0
    requires (l in had <==> mid.nextLabel <= l < mid.nextLabel + labels)
      && (l in owed <==> l in had && l != mid.nextLabel)
    ensures head == LS.Close(mid.nextLabel, mid.nextLabel, mid.Labels(labels))
    ensures Owes(locals, em, head, owed, {}, l, t, outside) && em.nextLabel <= mid.nextLabel
      && head.nextLabel == mid.nextLabel + labels
  {
    hide Owes, Lowers, LS.Emitter.Put;
    var n := mid.nextLabel;
    assert mid.Temps(0).Labels(labels) == mid.Labels(labels);
    OwesTaken(locals, em, mid, labels, 0, {}, had, {}, l, t, outside);
    OwesBlock(locals, em, mid.Labels(labels), Br(n), n, had, owed, {}, l, t, outside);
    head := LS.Close(n, n, mid.Labels(labels));
  }

  lemma OutsideLoop(to: LS.Targets, onBreak: Label, onContinue: Label, l: Label)
    ensures l in Outside(LS.Targets(Some(onBreak), Some(onContinue), to.exit)) ==>
      l in Outside(to) || l == onBreak || l == onContinue
  {
  }

  lemma {:induction false} LowersWhile(locals: set<string>, s: Stmt, to: LS.Targets, em: Emitter, l: Label, t: Temp)
    requires s.While? && LS.WhileStatement(locals, s, to, em).Some?
    ensures Lowers(locals, em, LS.WhileStatement(locals, s, to, em).value, l, t, Outside(to))
    decreases s, 0
  {
    hide Owes, Lowers, Outside, LS.Emitter.Put, LS.Extends, LS.Statement, LS.Condition;
    var n, out, inner := em.nextLabel, Outside(to), LS.Targets(Some(em.nextLabel + 2), Some(em.nextLabel), to.exit);
    LowersSelf(locals, em, l, t);
    Widen(locals, em, em, l, t, {}, out);
    OwesNothing(locals, em, em, {}, {}, l, t, out);
    var head := LowersHead(locals, em, em, 3, {n, n + 1, n + 2}, {n + 1, n + 2}, l, t, out);
    var test := LS.Condition(locals, s.condition, head);
    LowersCondition(locals, s.condition, head, l, t);
    OwesThen(locals, em, head, test.em, {n + 1, n + 2}, {}, l, t, out, {});
    OwesBlock(locals, em, test.em, CondBr(test.operand, n + 1, n + 2), n + 1, {n + 1, n + 2}, {n + 2}, {}, l, t, out);
    var fork := LS.Fork(test.operand, n + 1, n + 2, test.em);
    var body := LS.Statement(locals, s.body, inner, fork).value;
    LowersStatement(locals, s.body, inner, fork, l, t);
    OutsideLoop(to, n + 2, n, l);
    OwesThen(locals, em, fork, body, {n + 2}, {}, l, t, out, Outside(inner));
    OwesBlock(locals, em, body, Br(n), n + 2, {n + 2}, {}, {}, l, t, out);
    OwesNothing(locals, em, LS.Close(n, n + 2, body), {}, {}, l, t, out);
  }

  lemma {:induction false} LowersDo(locals: set<string>, s: Stmt, to: LS.Targets, em: Emitter, l: Label, t: Temp)
    requires s.DoWhile? && LS.DoStatement(locals, s, to, em).Some?
    ensures Lowers(locals, em, LS.DoStatement(locals, s, to, em).value, l, t, Outside(to))
    decreases s, 0
  {
    hide Owes, Lowers, Outside, LS.Emitter.Put, LS.Extends, LS.Statement, LS.Condition;
    var n, out, inner := em.nextLabel, Outside(to), LS.Targets(Some(em.nextLabel + 2), Some(em.nextLabel + 1), to.exit);
    LowersSelf(locals, em, l, t);
    Widen(locals, em, em, l, t, {}, out);
    OwesNothing(locals, em, em, {}, {}, l, t, out);
    var head := LowersHead(locals, em, em, 3, {n, n + 1, n + 2}, {n + 1, n + 2}, l, t, out);
    var body := LS.Statement(locals, s.body, inner, head).value;
    LowersStatement(locals, s.body, inner, head, l, t);
    OutsideLoop(to, n + 2, n + 1, l);
    OwesThen(locals, em, head, body, {n + 1, n + 2}, {}, l, t, out, Outside(inner));
    OwesBlock(locals, em, body, Br(n + 1), n + 1, {n + 1, n + 2}, {n + 2}, {}, l, t, out);
    var step := LS.Close(n + 1, n + 1, body);
    var test := LS.Condition(locals, s.condition, step);
    LowersCondition(locals, s.condition, step, l, t);
    OwesThen(locals, em, step, test.em, {n + 2}, {}, l, t, out, {});
    OwesBlock(locals, em, test.em, CondBr(test.operand, n, n + 2), n + 2, {n + 2}, {}, {}, l, t, out);
    OwesNothing(locals, em, LS.Split(test.operand, n, n + 2, test.em), {}, {}, l, t, out);
  }

  lemma LowersForTest(locals: set<string>, test: Option<Expr>, em: Emitter, l: Label, t: Temp)
    ensures Lowers(locals, em, LS.ForTest(locals, test, em).em, l, t, {})
  {
    hide Lowers, LS.Condition, LS.Extends;
    if test.Some? { LowersCondition(locals, test.value, em, l, t); } else { LowersSelf(locals, em, l, t); }
  }

  lemma {:induction false} LowersFor(locals: set<string>, s: Stmt, to: LS.Targets, em: Emitter, l: Label, t: Temp)
    requires s.For? && LS.ForStatement(locals, s, to, em).Some?
    ensures Lowers(locals, em, LS.ForStatement(locals, s, to, em).value, l, t, Outside(to))
    decreases s, 0
  {
    hide Owes, Lowers, Outside, LS.Emitter.Put, LS.Extends, LS.Statement, LS.ForTest, LS.Each;
    var out, em0 := Outside(to), LS.Each(locals, s.init, em);
    var n := em0.nextLabel;
    var inner := LS.Targets(Some(n + 3), Some(n + 2), to.exit);
    LowersEach(locals, s.init, em, l, t);
    Widen(locals, em, em0, l, t, {}, out);
    OwesNothing(locals, em, em0, {}, {}, l, t, out);
    var head := LowersHead(locals, em, em0, 4, {n, n + 1, n + 2, n + 3}, {n + 1, n + 2, n + 3}, l, t, out);
    var c := LS.ForTest(locals, s.test, head);
    LowersForTest(locals, s.test, head, l, t);
    OwesThen(locals, em, head, c.em, {n + 1, n + 2, n + 3}, {}, l, t, out, {});
    OwesBlock(locals, em, c.em, CondBr(c.operand, n + 1, n + 3), n + 1, {n + 1, n + 2, n + 3},
              {n + 2, n + 3}, {}, l, t, out);
    var fork := LS.Fork(c.operand, n + 1, n + 3, c.em);
    var body := LS.Statement(locals, s.body, inner, fork).value;
    LowersStatement(locals, s.body, inner, fork, l, t);
    OutsideLoop(to, n + 3, n + 2, l);
    OwesThen(locals, em, fork, body, {n + 2, n + 3}, {}, l, t, out, Outside(inner));
    OwesBlock(locals, em, body, Br(n + 2), n + 2, {n + 2, n + 3}, {n + 3}, {}, l, t, out);
    var step := LS.Close(n + 2, n + 2, body);
    var updated := LS.Each(locals, s.update, step);
    LowersEach(locals, s.update, step, l, t);
    OwesThen(locals, em, step, updated, {n + 3}, {}, l, t, out, {});
    OwesBlock(locals, em, updated, Br(n), n + 3, {n + 3}, {}, {}, l, t, out);
    OwesNothing(locals, em, LS.Close(n, n + 3, updated), {}, {}, l, t, out);
  }
}

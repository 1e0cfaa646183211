/** The lowering as the backend performs it: methods that append instructions, take names from
    counters, and overwrite and restore the labels `break` and `continue` go to. Each method is
    proved to emit exactly the code its specification names, and to leave the labels alone. */
module Lowering {
  import opened Options
  import opened Syntax
  import opened Meaning
  import opened Machine
  import LS = LoweringSpec

  class LoweringState {
    const localNames: set<string>
    var instructions: seq<Instr>
    var allocas: seq<Temp>
    var entryInstructions: seq<Instr>
    var tempIndex: Temp
    var labelIndex: Label
    var variableSlots: map<string, Temp>
    var breakLabel: Option<Label>
    var continueLabel: Option<Label>
    var phaseExitLabel: Label

    /** A state whose phase exit label has been taken. */
    constructor (locals: set<string>)
      ensures localNames == locals && Emitted() == LS.START && Targets() == LS.AT_START
    {
      localNames := locals;
      instructions, allocas, entryInstructions := [], [], [];
      tempIndex, labelIndex, variableSlots := 0, 1, map[];
      breakLabel, continueLabel, phaseExitLabel := None, None, 0;
    }

    ghost function Emitted(): LS.Emitter
      reads this
    {
      LS.Emitter(instructions, allocas, entryInstructions, tempIndex, labelIndex, variableSlots)
    }

    ghost function Targets(): LS.Targets
      reads this
    {
      LS.Targets(breakLabel, continueLabel, phaseExitLabel)
    }

    // ----- The builder -----

    method NextTemp() returns (t: Temp)
      modifies this`tempIndex
      ensures t == old(tempIndex) && Emitted() == old(Emitted()).Temps(1)
    {
      t := tempIndex;
      tempIndex := tempIndex + 1;
    }

    method NextLabel() returns (l: Label)
      modifies this`labelIndex
      ensures l == old(labelIndex) && Emitted() == old(Emitted()).Labels(1)
    {
      l := labelIndex;
      labelIndex := labelIndex + 1;
    }

    method Append(i: Instr)
      modifies this`instructions
      ensures Emitted() == old(Emitted()).Put(i)
    {
      instructions := instructions + [i];
    }

    /** `br label %target` and the block `next` after it. */
    method Close(target: Label, next: Label)
      modifies this`instructions
      ensures Emitted() == LS.Close(target, next, old(Emitted()))
    {
      Append(Br(target));
      Append(Mark(next));
    }

    /** `br i1` to either of two labels, and the first of their blocks after it. */
    method Fork(condition: Operand, first: Label, second: Label)
      modifies this`instructions
      ensures Emitted() == LS.Fork(condition, first, second, old(Emitted()))
    {
      Append(CondBr(condition, first, second));
      Append(Mark(first));
    }

    method VariableAddress(x: string) returns (address: Address)
      modifies this
      ensures LS.Addressed(Emitted(), address) == LS.VariableAddress(localNames, x, old(Emitted()))
        && Targets() == old(Targets())
    {
      if x in variableSlots {
        address := Cell(variableSlots[x]);
      } else if x in localNames {
        var t := NextTemp();
        allocas := allocas + [t];
        entryInstructions := entryInstructions + [Store(Literal(ZERO), Cell(t))];
        variableSlots := variableSlots[x := t];
        address := Cell(t);
      } else {
        var t := NextTemp();
        Append(SlotPointer(t, x));
        address := Slot(t);
      }
    }

    /** The next temporary, defined by the instruction `i` that names it. */
    method Define(i: Instr) returns (result: Operand)
      modifies this`instructions, this`tempIndex
      ensures LS.Lowered(Emitted(), result) == LS.Last(i, old(Emitted()))
    {
      var t := NextTemp();
      Append(i);
      result := Use(t);
    }

    method BinOp(op: FloatOp, left: Operand, right: Operand) returns (result: Operand)
      modifies this`instructions, this`tempIndex
      ensures LS.Lowered(Emitted(), result) == LS.Last(Binary(old(tempIndex), op, left, right), old(Emitted()))
    {
      result := Define(Binary(tempIndex, op, left, right));
    }

    // ----- Expressions -----

    method CombineNumericAssignment(op: ArithOp, current: Operand, update: Operand) returns (result: Operand)
      modifies this`instructions, this`tempIndex
      ensures LS.Lowered(Emitted(), result) == LS.Combine(op, current, update, old(Emitted()))
    {
      var t := NextTemp();
      result := Use(t);
      match op {
        case Add => Append(Binary(t, FAdd, current, update));
        case Sub => Append(Binary(t, FSub, current, update));
        case Mul => Append(Binary(t, FMul, current, update));
        case Div => Append(Binary(t, FDiv, current, update));
        case Mod =>
          var quotient := NextTemp();
          var truncated := NextTemp();
          var product := NextTemp();
          Append(Binary(quotient, FDiv, current, update));
          Append(CallTrunc(truncated, Use(quotient)));
          Append(Binary(product, FMul, Use(truncated), update));
          Append(Binary(t, FSub, current, Use(product)));
        case Pow => Append(CallPow(t, current, update));
      }
    }

    method LowerArith(op: ArithOp, left: Operand, right: Operand) returns (result: Operand)
      modifies this`instructions, this`tempIndex
      ensures LS.Lowered(Emitted(), result) == LS.LowerArith(op, left, right, old(Emitted()))
    {
      match op {
        case Add => result := BinOp(FAdd, left, right);
        case Sub => result := BinOp(FSub, left, right);
        case Mul => result := BinOp(FMul, left, right);
        case Div => result := BinOp(FDiv, left, right);
        case Mod =>
          var quotient := NextTemp();
          var truncated := NextTemp();
          var product := NextTemp();
          var remainder := NextTemp();
          Append(Binary(quotient, FDiv, left, right));
          Append(CallTrunc(truncated, Use(quotient)));
          Append(Binary(product, FMul, Use(truncated), right));
          Append(Binary(remainder, FSub, left, Use(product)));
          result := Use(remainder);
        case Pow =>
          result := Define(CallPow(tempIndex, left, right));
      }
    }

    method LowerAssignmentExpression(x: string, aop: AssignOp, right: Expr) returns (result: Operand)
      modifies this
      ensures LS.Lowered(Emitted(), result) == LS.Number(localNames, Assign(x, aop, right), old(Emitted()))
        && Targets() == old(Targets())
      decreases right, 2
    {
      hide LS.Combine, LS.VariableAddress, LS.Extends, LS.Condition, LS.Last;
      var address := VariableAddress(x);
      var current := Define(Load(tempIndex, address));
      result := LowerNumeric(right);
      if aop.Compound? {
        result := CombineNumericAssignment(aop.op, current, result);
      }
      Append(Store(result, address));
    }

    method LowerIncrement(x: string, up: bool, returnOld: bool) returns (result: Operand)
      modifies this
      ensures LS.Lowered(Emitted(), result) == LS.Number(localNames, Increment(x, up, returnOld), old(Emitted()))
        && Targets() == old(Targets())
    {
      hide LS.VariableAddress, LS.Extends;
      var address := VariableAddress(x);
      var before := NextTemp();
      var after := NextTemp();
      Append(Load(before, address));
      Append(Binary(after, if up then FAdd else FSub, Use(before), Literal(ONE)));
      Append(Store(Use(after), address));
      result := Use(if returnOld then before else after);
    }

    method LowerNumeric(e: Expr) returns (result: Operand)
      modifies this
      ensures LS.Lowered(Emitted(), result) == LS.Number(localNames, e, old(Emitted())) && Targets() == old(Targets())
      decreases e, if LS.IsLogical(e) then 1 else 0, 1
    {
      hide LS.LowerArith, LS.VariableAddress, LS.Extends, LS.Condition, LS.Join, LS.Fork, LS.Close, LS.Last;
      match e {
        case Number(v) => result := Literal(v);
        case Name(x) =>
          var address := VariableAddress(x);
          result := Define(Load(tempIndex, address));
        case Builtin(which) =>
          result := Define(CallBuiltin(tempIndex, which));
        case Assign(x, aop, right) => result := LowerAssignmentExpression(x, aop, right);
        case Sign(UPlus, operand) => result := LowerNumeric(operand);
        case Sign(UMinus, operand) =>
          var v := LowerNumeric(operand);
          result := BinOp(FSub, Literal(ZERO), v);
        case Sign(Not, operand) =>
          var v := LowerCondition(operand);
          result := Define(Select(tempIndex, v, Literal(ZERO), Literal(ONE)));
        case Increment(x, up, returnOld) => result := LowerIncrement(x, up, returnOld);
        case Arith(op, left, right) =>
          var l := LowerNumeric(left);
          var r := LowerNumeric(right);
          result := LowerArith(op, l, r);
        case Conditional(_, _, _) =>
          if BranchesToJoin(e) {
            result := LowerNumericConditional(e);
          } else {
            result := LowerNumericSelect(e);
          }
        case _ =>
          var c := LowerCondition(e);
          result := Define(BoolToDouble(tempIndex, c));
      }
    }

    /** The end of a joined ternary: the branch instruction, the end block and its `phi`. */
    method Join(a: Operand, fromA: Label, b: Operand, fromB: Label, end: Label) returns (result: Operand)
      modifies this`instructions, this`tempIndex
      ensures LS.Lowered(Emitted(), result) == LS.Join(a, fromA, b, fromB, end, old(Emitted()))
    {
      Close(end, end);
      result := Define(Phi(tempIndex, a, fromA, b, fromB));
    }

    /** The labels of a joined ternary, and the branch on its test. */
    method ForkTernary(c: Operand) returns (trueLabel: Label, falseLabel: Label, endLabel: Label)
      modifies this`instructions, this`labelIndex
      ensures trueLabel == old(labelIndex) && falseLabel == trueLabel + 1 && endLabel == trueLabel + 2
      ensures Emitted() == LS.Fork(c, trueLabel, falseLabel, old(Emitted()).Labels(3))
    {
      hide LS.Fork;
      trueLabel := NextLabel();
      falseLabel := NextLabel();
      endLabel := NextLabel();
      Fork(c, trueLabel, falseLabel);
    }

    method LowerNumericConditional(e: Expr) returns (result: Operand)
      requires e.Conditional? && BranchesToJoin(e)
      modifies this
      ensures LS.Lowered(Emitted(), result) == LS.Number(localNames, e, old(Emitted())) && Targets() == old(Targets())
      decreases e, 0, 0
    {
      hide LS.Extends, LS.Condition, LS.Join, LS.Fork, LS.Close;
      var c := LowerCondition(e.test);
      var trueLabel, falseLabel, endLabel := ForkTernary(c);
      var a := LowerNumeric(e.ifTrue);
      Close(endLabel, falseLabel);
      var b := LowerNumeric(e.ifFalse);
      result := Join(a, trueLabel, b, falseLabel, endLabel);
    }

    method LowerNumericSelect(e: Expr) returns (result: Operand)
      requires e.Conditional? && !BranchesToJoin(e)
      modifies this
      ensures LS.Lowered(Emitted(), result) == LS.Number(localNames, e, old(Emitted())) && Targets() == old(Targets())
      decreases e, 0, 0
    {
      hide LS.Extends, LS.Condition, LS.Last;
      var c := LowerCondition(e.test);
      var a := LowerNumeric(e.ifTrue);
      var b := LowerNumeric(e.ifFalse);
      result := Define(Select(tempIndex, c, a, b));
    }

    method LowerConditionSelect(e: Expr) returns (result: Operand)
      requires e.Conditional? && !BranchesToJoin(e)
      modifies this
      ensures LS.Lowered(Emitted(), result) == LS.Condition(localNames, e, old(Emitted()))
        && Targets() == old(Targets())
      decreases e, 1, 0
    {
      hide LS.Extends, LS.Number, LS.Last;
      var c := LowerCondition(e.test);
      var a := LowerCondition(e.ifTrue);
      var b := LowerCondition(e.ifFalse);
      result := Define(Select(tempIndex, c, a, b));
    }

    method LowerConditionConditional(e: Expr) returns (result: Operand)
      requires e.Conditional? && BranchesToJoin(e)
      modifies this
      ensures LS.Lowered(Emitted(), result) == LS.Condition(localNames, e, old(Emitted()))
        && Targets() == old(Targets())
      decreases e, 1, 0
    {
      hide LS.Extends, LS.Number, LS.Join, LS.Fork, LS.Close;
      var c := LowerCondition(e.test);
      var trueLabel, falseLabel, endLabel := ForkTernary(c);
      var a := LowerCondition(e.ifTrue);
      Close(endLabel, falseLabel);
      var b := LowerCondition(e.ifFalse);
      result := Join(a, trueLabel, b, falseLabel, endLabel);
    }

    method LowerStringConditional(e: Expr) returns (result: Operand)
      requires e.Conditional?
      modifies this
      ensures LS.Lowered(Emitted(), result) == LS.TextOf(localNames, e, old(Emitted())) && Targets() == old(Targets())
      decreases e, 1, 0
    {
      hide LS.Extends, LS.Number, LS.Condition, LS.Join, LS.Fork, LS.Close, LS.CapturedText;
      var c := LowerCondition(e.test);
      var trueLabel, falseLabel, endLabel := ForkTernary(c);
      var a := LowerCapturedString(e.ifTrue);
      Close(endLabel, falseLabel);
      var b := LowerCapturedString(e.ifFalse);
      result := Join(a, trueLabel, b, falseLabel, endLabel);
    }

    method LowerString(e: Expr) returns (result: Operand)
      modifies this
      ensures LS.Lowered(Emitted(), result) == LS.TextOf(localNames, e, old(Emitted())) && Targets() == old(Targets())
      decreases e, 2, 0
    {
      hide LS.Number, LS.Extends;
      if e.Conditional? {
        result := LowerStringConditional(e);
      } else {
        var v := LowerNumeric(e);
        result := Define(FormatNumber(tempIndex, v));
      }
    }

    method LowerCapturedString(e: Expr) returns (result: Operand)
      modifies this
      ensures LS.Lowered(Emitted(), result) == LS.CapturedText(localNames, e, old(Emitted()))
        && Targets() == old(Targets())
      decreases e, 3, 0
    {
      hide LS.TextOf, LS.Extends;
      var v := LowerString(e);
      result := Define(Capture(tempIndex, v));
    }

    method LowerCondition(e: Expr) returns (result: Operand)
      modifies this
      ensures LS.Lowered(Emitted(), result) == LS.Condition(localNames, e, old(Emitted()))
        && Targets() == old(Targets())
      decreases e, if LS.IsLogical(e) then 0 else 1, 2
    {
      hide LS.Number, LS.Extends, LS.Join, LS.Fork, LS.Close, LS.CapturedText, LS.BeginAnd, LS.BeginOr, LS.EndAnd;
      hide LS.EndOr, LS.Last;
      match e {
        case Compare(_, _, _) => result := LowerComparison(e);
        case And(_, _) => result := LowerAnd(e);
        case Or(_, _) => result := LowerOr(e);
        case Conditional(_, _, _) =>
          if BranchesToJoin(e) {
            result := LowerConditionConditional(e);
          } else {
            result := LowerConditionSelect(e);
          }
        case _ =>
          var v := LowerNumeric(e);
          result := Define(FCmp(tempIndex, NotEqual, v, Literal(ZERO)));
      }
    }

    method LowerComparison(e: Expr) returns (result: Operand)
      requires e.Compare?
      modifies this
      ensures LS.Lowered(Emitted(), result) == LS.Condition(localNames, e, old(Emitted()))
        && Targets() == old(Targets())
      decreases e, 0, 1
    {
      hide LS.Number, LS.Extends, LS.CapturedText, LS.Last;
      var l, r;
      if ComparesNumbers(e) {
        l := LowerNumeric(e.left);
        r := LowerNumeric(e.right);
        result := Define(FCmp(tempIndex, e.cop, l, r));
      } else {
        var leftText := LowerCapturedString(e.left);
        l := LowerNumeric(e.left);
        var rightText := LowerCapturedString(e.right);
        r := LowerNumeric(e.right);
        result := Define(CompareValues(tempIndex, leftText, l, rightText, r, e.cop));
      }
    }

    method LowerAnd(e: Expr) returns (result: Operand)
      requires e.And?
      modifies this
      ensures LS.Lowered(Emitted(), result) == LS.Condition(localNames, e, old(Emitted()))
        && Targets() == old(Targets())
      decreases e, 0, 0
    {
      hide LS.Extends, LS.Number, LS.BeginAnd, LS.EndAnd, LS.BeginOr, LS.EndOr, LS.ComparedTexts;
      var l := LowerCondition(e.left);
      ghost var first := LS.Lowered(Emitted(), l);
      var rhsValueLabel, falseLabel, endLabel, t := BeginAnd(l);
      var r := LowerCondition(e.right);
      EndAnd(first, r, rhsValueLabel, falseLabel, endLabel, t);
      result := Use(t);
    }

    /** The branch on the left operand of `&&` and the block its right operand is evaluated in. */
    method BeginAnd(l: Operand) returns (rhsValueLabel: Label, falseLabel: Label, endLabel: Label, t: Temp)
      modifies this`instructions, this`tempIndex, this`labelIndex
      ensures Emitted() == LS.BeginAnd(LS.Lowered(old(Emitted()), l)) && t == old(tempIndex)
      ensures rhsValueLabel == old(labelIndex) + 1 && falseLabel == old(labelIndex) + 2
        && endLabel == old(labelIndex) + 3
    {
      hide LS.Fork;
      var rhsLabel := NextLabel();
      rhsValueLabel := NextLabel();
      falseLabel := NextLabel();
      endLabel := NextLabel();
      t := NextTemp();
      Fork(l, rhsLabel, falseLabel);
    }

    method EndAnd(ghost l: LS.Lowered, r: Operand, rhsValueLabel: Label, falseLabel: Label, endLabel: Label, t: Temp)
      requires rhsValueLabel == l.em.nextLabel + 1 && falseLabel == l.em.nextLabel + 2 && endLabel == l.em.nextLabel + 3
        && t == l.em.nextTemp
      modifies this`instructions
      ensures LS.Lowered(Emitted(), Use(t)) == LS.EndAnd(l, LS.Lowered(old(Emitted()), r))
    {
      hide LS.Close;
      Close(rhsValueLabel, rhsValueLabel);
      Close(endLabel, falseLabel);
      Close(endLabel, endLabel);
      Append(Phi(t, BoolLiteral(false), falseLabel, r, rhsValueLabel));
    }

    method LowerOr(e: Expr) returns (result: Operand)
      requires e.Or?
      modifies this
      ensures LS.Lowered(Emitted(), result) == LS.Condition(localNames, e, old(Emitted()))
        && Targets() == old(Targets())
      decreases e, 0, 0
    {
      hide LS.Extends, LS.Number, LS.BeginAnd, LS.EndAnd, LS.BeginOr, LS.EndOr, LS.ComparedTexts;
      var l := LowerCondition(e.left);
      ghost var first := LS.Lowered(Emitted(), l);
      var trueLabel, rhsValueLabel, endLabel, t := BeginOr(l);
      var r := LowerCondition(e.right);
      EndOr(first, r, trueLabel, rhsValueLabel, endLabel, t);
      result := Use(t);
    }

    /** The branch on the left operand of `||` and the block its right operand is evaluated in. */
    method BeginOr(l: Operand) returns (trueLabel: Label, rhsValueLabel: Label, endLabel: Label, t: Temp)
      modifies this`instructions, this`tempIndex, this`labelIndex
      ensures Emitted() == LS.BeginOr(LS.Lowered(old(Emitted()), l)) && t == old(tempIndex)
      ensures trueLabel == old(labelIndex) && rhsValueLabel == old(labelIndex) + 2 && endLabel == old(labelIndex) + 3
    {
      hide LS.Fork, LS.Close;
      trueLabel := NextLabel();
      var rhsLabel := NextLabel();
      rhsValueLabel := NextLabel();
      endLabel := NextLabel();
      t := NextTemp();
      Fork(l, trueLabel, rhsLabel);
      Close(endLabel, rhsLabel);
    }

    method EndOr(ghost l: LS.Lowered, r: Operand, trueLabel: Label, rhsValueLabel: Label, endLabel: Label, t: Temp)
      requires trueLabel == l.em.nextLabel && rhsValueLabel == l.em.nextLabel + 2 && endLabel == l.em.nextLabel + 3
        && t == l.em.nextTemp
      modifies this`instructions
      ensures LS.Lowered(Emitted(), Use(t)) == LS.EndOr(l, LS.Lowered(old(Emitted()), r))
    {
      hide LS.Close;
      Close(rhsValueLabel, rhsValueLabel);
      Close(endLabel, endLabel);
      Append(Phi(t, BoolLiteral(true), trueLabel, r, rhsValueLabel));
    }

    // ----- Statements -----

    method LowerEach(es: seq<Expr>)
      modifies this
      ensures Emitted() == LS.Each(localNames, es, old(Emitted())) && Targets() == old(Targets())
    {
      hide LS.Number, LS.Extends;
      ghost var before := Emitted();
      for i := 0 to |es|
        invariant Targets() == old(Targets())
        invariant LS.Each(localNames, es[i..], Emitted()) == LS.Each(localNames, es, before)
      {
        assert es[i..][0] == es[i] && es[i..][1..] == es[i + 1..];
        var _ := LowerNumeric(es[i]);
      }
    }

    method LowerPrint(es: seq<Expr>)
      modifies this
      ensures Emitted() == (if es == [] then LS.DefaultPrint(old(Emitted()))
                            else LS.PrintArguments(localNames, es, 0, old(Emitted())))
      ensures Targets() == old(Targets())
    {
      hide LS.Number, LS.Extends;
      if es == [] {
        LowerDefaultPrint();
        return;
      }
      ghost var before := Emitted();
      for i := 0 to |es|
        invariant Targets() == old(Targets())
        invariant LS.PrintArguments(localNames, es, i, Emitted()) == LS.PrintArguments(localNames, es, 0, before)
      {
        if i > 0 {
          Append(PrintSeparator);
        }
        var v := LowerNumeric(es[i]);
        Append(PrintNumber(v));
      }
      Append(PrintEnd);
    }

    method LowerDefaultPrint()
      modifies this`instructions, this`tempIndex
      ensures Emitted() == LS.DefaultPrint(old(Emitted()))
    {
      var t := NextTemp();
      Append(LoadRecord(t));
      Append(PrintText(Use(t)));
    }

    method LowerAssignmentStatement(x: string, aop: AssignOp, value: Expr)
      modifies this
      ensures Emitted() == LS.Assignment(localNames, x, aop, value, old(Emitted())) && Targets() == old(Targets())
    {
      hide LS.Number, LS.Extends, LS.VariableAddress, LS.Combine;
      var address := VariableAddress(x);
      var result := LowerNumeric(value);
      if aop.Compound? {
        var current := NextTemp();
        Append(Load(current, address));
        result := CombineNumericAssignment(aop.op, Use(current), result);
      }
      Append(Store(result, address));
    }

    method LowerExit(status: Option<Expr>)
      modifies this
      ensures Emitted() == LS.Exit(localNames, status, old(Emitted())) && Targets() == old(Targets())
    {
      hide LS.Number, LS.Extends;
      var value := IntLiteral(0);
      if status.Some? {
        var v := LowerNumeric(status.value);
        var t := NextTemp();
        Append(DoubleToInt(t, v));
        value := Use(t);
      }
      Append(RequestExit(value));
    }

    /** A stray `break` or `continue` is refused, and then the labels are restored all the same. */
    method LowerStatement(s: Stmt) returns (ok: bool)
      modifies this
      ensures Targets() == old(Targets())
      ensures ok == LS.Statement(localNames, s, Targets(), old(Emitted())).Some?
      ensures ok ==> Some(Emitted()) == LS.Statement(localNames, s, Targets(), old(Emitted()))
      decreases s, 1
    {
      hide LS.Number, LS.Extends, LS.Assignment, LS.Exit, LS.IfStatement, LS.WhileStatement, LS.DoStatement;
      hide LS.ForStatement, LS.Statements;
      ok := true;
      match s {
        case AssignStmt(x, aop, value) => LowerAssignmentStatement(x, aop, value);
        case ExprStmt(e) => var _ := LowerNumeric(e);
        case Print(es) => LowerPrint(es);
        case Block(ss) => ok := LowerStatements(ss);
        case If(_, _, _) => ok := LowerIf(s);
        case While(_, _) => ok := LowerWhile(s);
        case DoWhile(_, _) => ok := LowerDoWhile(s);
        case For(_, _, _, _) => ok := LowerFor(s);
        case BreakStmt =>
          if breakLabel.None? {
            return false;
          }
          Append(Br(breakLabel.value));
        case ContinueStmt =>
          if continueLabel.None? {
            return false;
          }
          Append(Br(continueLabel.value));
        case NextStmt => Append(Br(phaseExitLabel));
        case NextFileStmt =>
          Append(CallNextFile);
          Append(Br(phaseExitLabel));
        case ExitStmt(status) =>
          LowerExit(status);
          Append(Br(phaseExitLabel));
      }
    }

    method LowerStatements(ss: seq<Stmt>) returns (ok: bool)
      modifies this
      ensures Targets() == old(Targets())
      ensures ok == LS.Statements(localNames, ss, Targets(), old(Emitted())).Some?
      ensures ok ==> Some(Emitted()) == LS.Statements(localNames, ss, Targets(), old(Emitted()))
      decreases ss, 0
    {
      hide LS.Statement, LS.Extends;
      ghost var before := Emitted();
      for i := 0 to |ss|
        invariant Targets() == old(Targets())
        invariant LS.Statements(localNames, ss[i..], Targets(), Emitted())
          == LS.Statements(localNames, ss, Targets(), before)
      {
        assert ss[i..][0] == ss[i] && ss[i..][1..] == ss[i + 1..];
        ok := LowerStatement(ss[i]);
        if !ok {
          return;
        }
      }
      ok := true;
    }

    method LowerIf(s: Stmt) returns (ok: bool)
      requires s.If?
      modifies this
      ensures Targets() == old(Targets())
      ensures ok == LS.IfStatement(localNames, s, Targets(), old(Emitted())).Some?
      ensures ok ==> Some(Emitted()) == LS.IfStatement(localNames, s, Targets(), old(Emitted()))
      decreases s, 0
    {
      hide LS.Statement, LS.Extends, LS.Condition, LS.Fork, LS.Close;
      var thenLabel := NextLabel();
      var elseLabel := None;
      if s.elseBranch.Some? {
        var l := NextLabel();
        elseLabel := Some(l);
      }
      var endLabel := NextLabel();
      var condition := LowerCondition(s.condition);
      Fork(condition, thenLabel, if elseLabel.None? then endLabel else elseLabel.value);
      ok := LowerStatement(s.thenBranch);
      if !ok {
        return;
      }
      if s.elseBranch.Some? {
        Close(endLabel, elseLabel.value);
        ok := LowerStatement(s.elseBranch.value);
        if !ok {
          return;
        }
      }
      Close(endLabel, endLabel);
    }

    /** The body of a loop, with the loop's own labels in force; the outer ones come back
        whether or not the body was accepted. */
    method LowerLoopBody(body: Stmt, onBreak: Label, onContinue: Label) returns (ok: bool)
      modifies this
      ensures Targets() == old(Targets())
      ensures ok == LS.Statement(localNames, body, LS.Targets(Some(onBreak), Some(onContinue), phaseExitLabel),
                                 old(Emitted())).Some?
      ensures ok ==>
        Some(Emitted()) == LS.Statement(localNames, body, LS.Targets(Some(onBreak), Some(onContinue), phaseExitLabel),
          old(Emitted()))
      decreases body, 2
    {
      hide LS.Statement, LS.Extends;
      var previousBreak, previousContinue := breakLabel, continueLabel;
      breakLabel, continueLabel := Some(onBreak), Some(onContinue);
      ok := LowerStatement(body);
      breakLabel, continueLabel := previousBreak, previousContinue;
    }

    method LowerWhile(s: Stmt) returns (ok: bool)
      requires s.While?
      modifies this
      ensures Targets() == old(Targets())
      ensures ok == LS.WhileStatement(localNames, s, Targets(), old(Emitted())).Some?
      ensures ok ==> Some(Emitted()) == LS.WhileStatement(localNames, s, Targets(), old(Emitted()))
      decreases s, 0
    {
      hide LS.Statement, LS.Extends, LS.Condition, LS.Fork, LS.Close;
      var condLabel := NextLabel();
      var bodyLabel := NextLabel();
      var endLabel := NextLabel();
      Close(condLabel, condLabel);
      var condition := LowerCondition(s.condition);
      Fork(condition, bodyLabel, endLabel);
      ok := LowerLoopBody(s.body, endLabel, condLabel);
      if !ok {
        return;
      }
      Close(condLabel, endLabel);
    }

    method LowerDoWhile(s: Stmt) returns (ok: bool)
      requires s.DoWhile?
      modifies this
      ensures Targets() == old(Targets())
      ensures ok == LS.DoStatement(localNames, s, Targets(), old(Emitted())).Some?
      ensures ok ==> Some(Emitted()) == LS.DoStatement(localNames, s, Targets(), old(Emitted()))
      decreases s, 0
    {
      hide LS.Statement, LS.Extends, LS.Condition, LS.Close;
      var bodyLabel := NextLabel();
      var condLabel := NextLabel();
      var endLabel := NextLabel();
      Close(bodyLabel, bodyLabel);
      ok := LowerLoopBody(s.body, endLabel, condLabel);
      if !ok {
        return;
      }
      Close(condLabel, condLabel);
      var condition := LowerCondition(s.condition);
      Append(CondBr(condition, bodyLabel, endLabel));
      Append(Mark(endLabel));
    }

    /** The condition of a `for` loop; an absent one always holds. */
    method LowerForTest(test: Option<Expr>) returns (condition: Operand)
      modifies this
      ensures LS.Lowered(Emitted(), condition) == LS.ForTest(localNames, test, old(Emitted()))
        && Targets() == old(Targets())
    {
      condition := BoolLiteral(true);
      if test.Some? {
        condition := LowerCondition(test.value);
      }
    }

    method LowerFor(s: Stmt) returns (ok: bool)
      requires s.For?
      modifies this
      ensures Targets() == old(Targets())
      ensures ok == LS.ForStatement(localNames, s, Targets(), old(Emitted())).Some?
      ensures ok ==> Some(Emitted()) == LS.ForStatement(localNames, s, Targets(), old(Emitted()))
      decreases s, 0
    {
      hide LS.Statement, LS.Extends, LS.ForTest, LS.Fork, LS.Close, LS.Each;
      LowerEach(s.init);
      var condLabel := NextLabel();
      var bodyLabel := NextLabel();
      var stepLabel := NextLabel();
      var endLabel := NextLabel();
      Close(condLabel, condLabel);
      var condition := LowerForTest(s.test);
      Fork(condition, bodyLabel, endLabel);
      ok := LowerLoopBody(s.body, endLabel, stepLabel);
      if !ok {
        return;
      }
      Close(stepLabel, stepLabel);
      LowerEach(s.update);
      Close(condLabel, endLabel);
    }

    // ----- Actions, record items and phases -----

    method LowerAction(action: Action) returns (ok: bool)
      modifies this
      ensures Targets() == old(Targets())
      ensures ok == LS.LowerAction(localNames, action, Targets(), old(Emitted())).Some?
      ensures ok ==> Some(Emitted()) == LS.LowerAction(localNames, action, Targets(), old(Emitted()))
    {
      hide LS.Statement, LS.Extends, LS.Close;
      var actionExitLabel := NextLabel();
      ghost var before, kept := Emitted(), LS.Emitted(action);
      ghost var rest := kept;
      var terminated := false;
      var i := 0;
      while i < |action| && !terminated
        invariant i <= |action| && Targets() == old(Targets())
        invariant rest == if terminated then [] else LS.Emitted(action[i..])
        invariant EndsLeaving(kept) == (terminated || EndsLeaving(rest))
        invariant LS.Statements(localNames, rest, Targets(), Emitted())
          == LS.Statements(localNames, kept, Targets(), before)
      {
        KeepsNext(action, i);
        ok := LowerStatement(action[i]);
        if !ok {
          return;
        }
        terminated := LS.EndsAction(action[i]);
        rest := rest[1..];
        i := i + 1;
      }
      ok := true;
      if terminated {
        Append(Mark(actionExitLabel));
      } else {
        Close(actionExitLabel, actionExitLabel);
      }
    }

    method LowerActionOrDefault(action: Option<Action>) returns (ok: bool)
      modifies this
      ensures Targets() == old(Targets())
      ensures ok == LS.ActionOrDefault(localNames, action, Targets(), old(Emitted())).Some?
      ensures ok ==> Some(Emitted()) == LS.ActionOrDefault(localNames, action, Targets(), old(Emitted()))
    {
      hide LS.LowerAction, LS.DefaultPrint;
      if action.None? {
        LowerDefaultPrint();
        ok := true;
      } else {
        ok := LowerAction(action.value);
      }
    }

    /** The right pattern of a range is lowered after the action, and the flag stored last. */
    method LowerRangeEnd(right: Expr, flag: Address)
      modifies this
      ensures Emitted() == LS.RangeEnd(localNames, right, flag, old(Emitted())) && Targets() == old(Targets())
    {
      hide LS.Condition;
      var matches := LowerCondition(right);
      var keep := NextTemp();
      var keepNumber := NextTemp();
      Append(Invert(keep, matches));
      Append(BoolToDouble(keepNumber, Use(keep)));
      Append(Store(Use(keepNumber), flag));
    }

    method LowerRecordItem(item: RecordItem) returns (ok: bool)
      modifies this
      ensures Targets() == old(Targets())
      ensures ok == LS.LowerItem(localNames, item, Targets(), old(Emitted())).Some?
      ensures ok ==> Some(Emitted()) == LS.LowerItem(localNames, item, Targets(), old(Emitted()))
    {
      hide LS.Condition, LS.ActionOrDefault, LS.LowerRange, LS.Fork, LS.Close, LS.Extends;
      match item.pattern {
        case Always => ok := LowerActionOrDefault(item.action);
        case When(test) =>
          var condition := LowerCondition(test);
          var thenLabel := NextLabel();
          var endLabel := NextLabel();
          Fork(condition, thenLabel, endLabel);
          ok := LowerActionOrDefault(item.action);
          if !ok {
            return;
          }
          Close(endLabel, endLabel);
        case Range(_, _, _) => ok := LowerRangeItem(item);
      }
    }

    method LowerRangeItem(item: RecordItem) returns (ok: bool)
      requires item.pattern.Range?
      modifies this
      ensures Targets() == old(Targets())
      ensures ok == LS.LowerRange(localNames, item, Targets(), old(Emitted())).Some?
      ensures ok ==> Some(Emitted()) == LS.LowerRange(localNames, item, Targets(), old(Emitted()))
    {
      hide LS.ActionOrDefault, LS.RangeEnd, LS.Fork, LS.Close, LS.Extends, LS.VariableAddress, LS.LowerRangeStart;
      var flag := VariableAddress(item.pattern.state);
      var activeFlag := LoadRangeFlag(flag);
      var activeLabel := NextLabel();
      var inactiveLabel := NextLabel();
      var endLabel := NextLabel();
      Fork(activeFlag, activeLabel, inactiveLabel);
      ok := LowerActionOrDefault(item.action);
      if !ok {
        return;
      }
      LowerRangeEnd(item.pattern.right, flag);
      Close(endLabel, inactiveLabel);
      ok := LowerRangeStart(item, flag, endLabel);
    }

    method LoadRangeFlag(flag: Address) returns (activeFlag: Operand)
      modifies this`instructions, this`tempIndex
      ensures LS.Lowered(Emitted(), activeFlag) == LS.RangeFlag(LS.Addressed(old(Emitted()), flag))
    {
      var value := NextTemp();
      var t := NextTemp();
      Append(Load(value, flag));
      Append(FCmp(t, NotEqual, Use(value), Literal(ZERO)));
      activeFlag := Use(t);
    }

    /** The inactive block of a range, where a record may start it. */
    method LowerRangeStart(item: RecordItem, flag: Address, endLabel: Label) returns (ok: bool)
      requires item.pattern.Range?
      modifies this
      ensures Targets() == old(Targets())
      ensures ok == LS.LowerRangeStart(localNames, item, Targets(), flag, endLabel, old(Emitted())).Some?
      ensures ok ==> Some(Emitted()) == LS.LowerRangeStart(localNames, item, Targets(), flag, endLabel, old(Emitted()))
    {
      hide LS.Condition, LS.ActionOrDefault, LS.RangeEnd, LS.Fork, LS.Close, LS.Extends;
      var starts := LowerCondition(item.pattern.left);
      var matchedLabel := NextLabel();
      Fork(starts, matchedLabel, endLabel);
      ok := LowerActionOrDefault(item.action);
      if !ok {
        return;
      }
      LowerRangeEnd(item.pattern.right, flag);
      Close(endLabel, endLabel);
    }
  }

  predicate EndsLeaving(ss: seq<Stmt>) {
    ss != [] && LS.EndsAction(ss[|ss| - 1])
  }

  lemma KeepsNext(action: Action, i: nat)
    requires i < |action|
    ensures
      var rest, ends := LS.Emitted(action[i..]), LS.EndsAction(action[i]);
      && rest != [] && rest[0] == action[i] && rest[1..] == (if ends then [] else LS.Emitted(action[i + 1..]))
      && EndsLeaving(rest) == (ends || EndsLeaving(rest[1..]))
  {
    assert action[i..][1..] == action[i + 1..];
  }

  // ----- Phases -----

  /** One generated function: every action or record item lowered in turn into one state. */
  method LowerPhase(locals: set<string>, phase: Phase) returns (r: Option<LS.PhaseFunction>)
    ensures r.Some? == LS.LowerPhase(locals, phase).Some?
    ensures r.Some? ==> r.value == LS.Render(LS.LowerPhase(locals, phase).value)
  {
    hide LS.LowerAction, LS.LowerItem, LS.Extends;
    var state := new LoweringState(locals);
    match phase {
      case Actions(actions) =>
        for i := 0 to |actions|
          invariant fresh(state) && state.Targets() == LS.AT_START && state.localNames == locals
          invariant LS.LowerActions(locals, actions[i..], LS.AT_START, state.Emitted())
            == LS.LowerActions(locals, actions, LS.AT_START, LS.START)
        {
          assert actions[i..][0] == actions[i] && actions[i..][1..] == actions[i + 1..];
          var ok := state.LowerAction(actions[i]);
          if !ok {
            return None;
          }
        }
      case Items(items) =>
        for i := 0 to |items|
          invariant fresh(state) && state.Targets() == LS.AT_START && state.localNames == locals
          invariant LS.LowerItems(locals, items[i..], LS.AT_START, state.Emitted())
            == LS.LowerItems(locals, items, LS.AT_START, LS.START)
        {
          assert items[i..][0] == items[i] && items[i..][1..] == items[i + 1..];
          var ok := state.LowerRecordItem(items[i]);
          if !ok {
            return None;
          }
        }
    }
    r := Some(LS.PhaseFunction(state.allocas, state.entryInstructions,
                               state.instructions + [Br(state.phaseExitLabel), Mark(state.phaseExitLabel), Ret]));
  }
}

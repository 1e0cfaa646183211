/** Where the emitted code does something a reader of the program may not expect: operands of a
    mixed comparison run twice, and a compound assignment reads its target at different times as a
    statement and as an expression. */
module Deviations {
  import opened Options
  import opened Syntax
  import opened Meaning
  import opened Effects
  import opened ResidencySound

  // ----- Worlds that look the same -----

  /** The same variables and the same output; which names were read early may differ. */
  ghost predicate Looks(cx: Context, w: World, w': World) {
    w.output == w'.output && w.exit == w'.exit && forall x :: Read(cx, x, w) == Read(cx, x, w')
  }

  lemma SameLooks(cx: Context)
    ensures forall u, v :: Looks(cx, u, v) ==> Looks(cx, v, u)
    ensures forall u, v, w :: Looks(cx, u, v) && Looks(cx, v, w) ==> Looks(cx, u, w)
  {
  }

  lemma ReadWritten(cx: Context, x: string, v: Double, w: World, y: string)
    ensures Read(cx, y, Write(cx, x, v, w)) == if y == x then v else Read(cx, y, w)
    ensures Read(cx, y, NoteRead(x, w)) == Read(cx, y, w)
  {
  }

  lemma WriteLooks(cx: Context, x: string, v: Double, w: World, w': World)
    requires Looks(cx, w, w')
    ensures Looks(cx, Write(cx, x, v, w), Write(cx, x, v, w'))
  {
    forall y
      ensures Read(cx, y, Write(cx, x, v, w)) == Read(cx, y, Write(cx, x, v, w'))
    {
      ReadWritten(cx, x, v, w, y);
      ReadWritten(cx, x, v, w', y);
      assert Read(cx, y, w) == Read(cx, y, w');
    }
  }

  /** Noting a read leaves everything as it looks. */
  lemma NoteLooks(cx: Context, x: string, w: World, w': World)
    requires Looks(cx, w, w')
    ensures Looks(cx, NoteRead(x, w), NoteRead(x, w')) && Read(cx, x, w) == Read(cx, x, w')
  {
    NotedLooks(cx, x, w);
    NotedLooks(cx, x, w');
    SameLooks(cx);
    assert Read(cx, x, w) == Read(cx, x, w');
    hide Looks;
  }

  lemma NotedLooks(cx: Context, x: string, w: World)
    ensures Looks(cx, w, NoteRead(x, w))
  {
    forall y
      ensures Read(cx, y, w) == Read(cx, y, NoteRead(x, w))
    {
      ReadWritten(cx, x, ZERO, w, y);
    }
  }

  /** An expression cannot tell worlds that look the same apart. */
  lemma {:induction false} EvalLooks(cx: Context, e: Expr, w: World, w': World)
    requires Looks(cx, w, w')
    ensures Eval(cx, e, w).value == Eval(cx, e, w').value && Looks(cx, Eval(cx, e, w).world, Eval(cx, e, w').world)
    decreases e, 0
  {
    hide Looks, Write, NoteRead, Read;
    match e
    case Number(_) =>
    case Name(x) => NoteLooks(cx, x, w, w');
    case Builtin(_) =>
    case Assign(x, aop, right) =>
      var v, v' := if aop.Plain? then w else NoteRead(x, w), if aop.Plain? then w' else NoteRead(x, w');
      NoteLooks(cx, x, w, w');
      EvalLooks(cx, right, v, v');
      WriteLooks(cx, x, Eval(cx, e, w).value, Eval(cx, right, v).world, Eval(cx, right, v').world);
    case Sign(_, operand) => EvalLooks(cx, operand, w, w');
    case Increment(x, up, _) =>
      var v := if up then cx.ops.add(Read(cx, x, w), ONE) else cx.ops.sub(Read(cx, x, w), ONE);
      NoteLooks(cx, x, w, w');
      WriteLooks(cx, x, v, NoteRead(x, w), NoteRead(x, w'));
    case Arith(_, l, r) =>
      EvalLooks(cx, l, w, w');
      EvalLooks(cx, r, Eval(cx, l, w).world, Eval(cx, l, w').world);
    case Compare(_, l, r) =>
      OperandLooks(cx, e, l, w, w');
      OperandLooks(cx, e, r, EvalOperand(cx, e, l, w).world, EvalOperand(cx, e, l, w').world);
    case And(l, r) =>
      EvalLooks(cx, l, w, w');
      EvalLooks(cx, r, Eval(cx, l, w).world, Eval(cx, l, w').world);
    case Or(l, r) =>
      EvalLooks(cx, l, w, w');
      EvalLooks(cx, r, Eval(cx, l, w).world, Eval(cx, l, w').world);
    case Conditional(c, t, f) =>
      EvalLooks(cx, c, w, w');
      EvalLooks(cx, t, Eval(cx, c, w).world, Eval(cx, c, w').world);
      EvalLooks(cx, f, Eval(cx, c, w).world, Eval(cx, c, w').world);
  }

  lemma {:induction false} OperandLooks(cx: Context, e: Expr, operand: Expr, w: World, w': World)
    requires Looks(cx, w, w') && e.Compare? && (operand == e.left || operand == e.right)
    ensures EvalOperand(cx, e, operand, w).value == EvalOperand(cx, e, operand, w').value
    ensures Looks(cx, EvalOperand(cx, e, operand, w).world, EvalOperand(cx, e, operand, w').world)
    decreases operand, 1
  {
    hide Looks;
    EvalLooks(cx, operand, w, w');
    EvalLooks(cx, operand, Eval(cx, operand, w).world, Eval(cx, operand, w').world);
  }

  lemma SameCellsLook(cx: Context, w: World, w': World)
    requires SameCells(w, w')
    ensures Looks(cx, w, w')
  {
    assert forall x :: Read(cx, x, w) == Read(cx, x, w');
  }

  // ----- Comparisons -----

  /** `(x = x - 1) > 0` as emitted takes two from `x`: the comparison is not known to be numeric,
      and lowers its operand once as text and once as a number. */
  lemma ComparedTwice(once: Context, twice: Context, w: World)
    requires ReadingsOf(once, twice)
    ensures
      var e := Compare(Greater, Assign("x", Plain, Arith(Sub, Name("x"), Number(ONE))), Number(ZERO));
      var before := Read(once, "x", w);
      && Read(once, "x", Eval(once, e, w).world) == once.ops.sub(before, ONE)
      && Read(once, "x", Eval(twice, e, w).world) == once.ops.sub(once.ops.sub(before, ONE), ONE)
  {
    var operand := Assign("x", Plain, Arith(Sub, Name("x"), Number(ONE)));
    var e := Compare(Greater, operand, Number(ZERO));
    Decremented(once, w);
    Decremented(twice, w);
    Decremented(twice, Eval(twice, operand, w).world);
    assert EvalOperand(once, e, operand, w) == Eval(once, operand, w);
    assert EvalOperand(twice, e, operand, w) == Eval(twice, operand, Eval(twice, operand, w).world);
    assert forall u :: EvalOperand(once, e, e.right, u).world == u && EvalOperand(twice, e, e.right, u).world == u;
  }

  lemma Decremented(cx: Context, w: World)
    ensures
      var operand := Assign("x", Plain, Arith(Sub, Name("x"), Number(ONE)));
      Read(cx, "x", Eval(cx, operand, w).world) == cx.ops.sub(Read(cx, "x", w), ONE)
  {
    assert Eval(cx, Name("x"), w) == Evaluated(Read(cx, "x", w), NoteRead("x", w));
    assert Eval(cx, Arith(Sub, Name("x"), Number(ONE)), w).value == cx.ops.sub(Read(cx, "x", w), ONE);
  }

  /** Evaluated again where it has just been evaluated. */
  function Again(cx: Context, e: Expr, w: World): Evaluated {
    Eval(cx, e, Eval(cx, e, w).world)
  }

  /** The second evaluation gives the same value and changes nothing more. */
  ghost predicate Repeats(cx: Context, e: Expr, w: World) {
    Again(cx, e, w).value == Eval(cx, e, w).value && Looks(cx, Again(cx, e, w).world, Eval(cx, e, w).world)
  }

  /** The comparison as emitted, in terms of its operands as written. */
  lemma ComparedAgain(once: Context, twice: Context, e: Expr, w: World)
    requires ReadingsOf(once, twice) && e.Compare? && !ComparesNumbers(e) && ComparesSafely(e.left)
      && ComparesSafely(e.right)
    ensures
      var l := Again(once, e.left, w);
      var r := Again(once, e.right, l.world);
      Eval(twice, e, w) == Evaluated(FromBool(once.ops.compare(e.cop, l.value, r.value)), r.world)
  {
    hide ComparesSafely;
    var l := Again(once, e.left, w);
    EvaluatedOnce(once, twice, e.left, w);
    EvaluatedOnce(once, twice, e.left, Eval(once, e.left, w).world);
    EvaluatedOnce(once, twice, e.right, l.world);
    EvaluatedOnce(once, twice, e.right, Eval(once, e.right, l.world).world);
    hide Eval;
  }

  /** Both readings agree if evaluating each operand a second time gives the same value and changes
      nothing more. */
  lemma ComparedAgrees(once: Context, twice: Context, e: Expr, w: World)
    requires ReadingsOf(once, twice) && e.Compare? && !ComparesNumbers(e) && ComparesSafely(e.left)
      && ComparesSafely(e.right)
    requires Repeats(once, e.left, w) && Repeats(once, e.right, Eval(once, e.left, w).world)
    ensures Eval(twice, e, w).value == Eval(once, e, w).value
    ensures Looks(once, Eval(twice, e, w).world, Eval(once, e, w).world)
  {
    ComparedAgain(once, twice, e, w);
    var l, l' := Eval(once, e.left, w), Again(once, e.left, w);
    var r, r' := Eval(once, e.right, l.world), Eval(once, e.right, l'.world);
    hide ComparesSafely, Looks;
    EvalLooks(once, e.right, l'.world, l.world);
    EvalLooks(once, e.right, r'.world, r.world);
    SameLooks(once);
  }

  /** Where the right operand has no side effects, the variables come out the same if and only if the
      left one, evaluated again, leaves them as it did the first time; and then so does the value if
      and only if the left operand's two values compare alike with the right one. */
  lemma ComparedExactlyLeft(once: Context, twice: Context, e: Expr, w: World)
    requires ReadingsOf(once, twice) && e.Compare? && !ComparesNumbers(e) && ComparesSafely(e.left)
    requires ComparesSafely(e.right) && !HasSideEffects(e.right)
    ensures
      var l, l' := Eval(once, e.left, w), Again(once, e.left, w);
      var r := Eval(once, e.right, l.world).value;
      && (Looks(once, Eval(twice, e, w).world, Eval(once, e, w).world) <==> Looks(once, l'.world, l.world))
      && (Looks(once, l'.world, l.world) ==>
        (Eval(twice, e, w).value == Eval(once, e, w).value <==>
          once.ops.compare(e.cop, l'.value, r) == once.ops.compare(e.cop, l.value, r)))
  {
    ComparedAgain(once, twice, e, w);
    var l, l' := Eval(once, e.left, w), Again(once, e.left, w);
    hide ComparesSafely, Looks;
    IdleTwice(once, e.right, l'.world);
    NoEffect(once, e.right, l.world);
    SameCellsLook(once, l.world, Eval(once, e.right, l.world).world);
    if Looks(once, l'.world, l.world) { EvalLooks(once, e.right, l'.world, l.world); }
    SameLooks(once);
  }

  /** An effect-free expression evaluated twice is as good as not evaluated, but for its value. */
  lemma IdleTwice(cx: Context, e: Expr, w: World)
    requires !HasSideEffects(e)
    ensures Looks(cx, w, Again(cx, e, w).world) && Again(cx, e, w).value == Eval(cx, e, w).value
  {
    var w1 := Eval(cx, e, w).world;
    hide Looks;
    NoEffect(cx, e, w);
    NoEffect(cx, e, w1);
    SameCellsLook(cx, w, w1);
    SameCellsLook(cx, w1, Again(cx, e, w).world);
    SameLooks(cx);
    EvalLooks(cx, e, w, w1);
  }

  /** Where the left operand has none, the same goes for the right one. */
  lemma ComparedExactlyRight(once: Context, twice: Context, e: Expr, w: World)
    requires ReadingsOf(once, twice) && e.Compare? && !ComparesNumbers(e) && ComparesSafely(e.left)
    requires ComparesSafely(e.right) && !HasSideEffects(e.left)
    ensures
      var l := Eval(once, e.left, w);
      var r, r' := Eval(once, e.right, l.world), Again(once, e.right, l.world);
      && (Looks(once, Eval(twice, e, w).world, Eval(once, e, w).world) <==> Looks(once, r'.world, r.world))
      && (Eval(twice, e, w).value == Eval(once, e, w).value <==>
        once.ops.compare(e.cop, l.value, r'.value) == once.ops.compare(e.cop, l.value, r.value))
  {
    ComparedAgain(once, twice, e, w);
    var l, l' := Eval(once, e.left, w), Again(once, e.left, w);
    hide ComparesSafely, Looks;
    IdleTwice(once, e.left, w);
    NoEffect(once, e.left, w);
    SameCellsLook(once, w, l.world);
    SameLooks(once);
    AgainLooks(once, e.right, l'.world, l.world);
  }

  lemma AgainLooks(cx: Context, e: Expr, w: World, w': World)
    requires Looks(cx, w, w')
    ensures Again(cx, e, w).value == Again(cx, e, w').value && Looks(cx, Again(cx, e, w).world, Again(cx, e, w').world)
  {
    hide Looks;
    EvalLooks(cx, e, w, w');
    EvalLooks(cx, e, Eval(cx, e, w).world, Eval(cx, e, w').world);
  }

  // ----- Compound assignments -----

  /** An expression that does not write a name leaves it as it was. */
  lemma {:induction false} Untouched(cx: Context, e: Expr, x: string, w: World)
    requires x !in Targets(e)
    ensures Read(cx, x, Eval(cx, e, w).world) == Read(cx, x, w)
    decreases e, 0
  {
    match e
    case Number(_) =>
    case Name(_) =>
    case Builtin(_) =>
    case Assign(y, aop, right) => Untouched(cx, right, x, if aop.Plain? then w else NoteRead(y, w));
    case Sign(_, operand) => Untouched(cx, operand, x, w);
    case Increment(_, _, _) =>
    case Arith(_, l, r) => Untouched(cx, l, x, w); Untouched(cx, r, x, Eval(cx, l, w).world);
    case Compare(_, l, r) =>
      UntouchedOperand(cx, e, l, x, w);
      UntouchedOperand(cx, e, r, x, EvalOperand(cx, e, l, w).world);
    case And(l, r) => Untouched(cx, l, x, w); Untouched(cx, r, x, Eval(cx, l, w).world);
    case Or(l, r) => Untouched(cx, l, x, w); Untouched(cx, r, x, Eval(cx, l, w).world);
    case Conditional(c, t, f) =>
      Untouched(cx, c, x, w);
      Untouched(cx, t, x, Eval(cx, c, w).world);
      Untouched(cx, f, x, Eval(cx, c, w).world);
  }

  lemma {:induction false} UntouchedOperand(cx: Context, e: Expr, operand: Expr, x: string, w: World)
    requires e.Compare? && (operand == e.left || operand == e.right) && x !in Targets(operand)
    ensures Read(cx, x, EvalOperand(cx, e, operand, w).world) == Read(cx, x, w)
    decreases operand, 1
  {
    Untouched(cx, operand, x, w);
    Untouched(cx, operand, x, Eval(cx, operand, w).world);
  }

  /** Noting a read of a name before or after an expression that does not write it is the same. */
  lemma {:induction false} NotedEitherWay(cx: Context, e: Expr, x: string, w: World)
    requires x !in Targets(e)
    ensures Eval(cx, e, NoteRead(x, w)) == Evaluated(Eval(cx, e, w).value, NoteRead(x, Eval(cx, e, w).world))
    decreases e, 1
  {
    match e
    case Number(_) =>
    case Name(y) => NotesCommute(x, y, w);
    case Builtin(_) =>
    case Assign(_, _, _) => NotedAssign(cx, e, x, w);
    case Sign(_, operand) => NotedEitherWay(cx, operand, x, w);
    case Increment(y, _, _) => NotesCommute(x, y, w);
    case Arith(_, l, r) => NotedEitherWay(cx, l, x, w); NotedEitherWay(cx, r, x, Eval(cx, l, w).world);
    case Compare(_, l, r) => NotedOperand(cx, e, l, x, w); NotedOperand(cx, e, r, x, EvalOperand(cx, e, l, w).world);
    case And(l, r) => NotedEitherWay(cx, l, x, w); NotedEitherWay(cx, r, x, Eval(cx, l, w).world);
    case Or(l, r) => NotedEitherWay(cx, l, x, w); NotedEitherWay(cx, r, x, Eval(cx, l, w).world);
    case Conditional(c, t, f) =>
      NotedEitherWay(cx, c, x, w);
      NotedEitherWay(cx, t, x, Eval(cx, c, w).world);
      NotedEitherWay(cx, f, x, Eval(cx, c, w).world);
  }

  lemma {:induction false} NotedAssign(cx: Context, e: Expr, x: string, w: World)
    requires e.Assign? && x !in Targets(e)
    ensures Eval(cx, e, NoteRead(x, w)) == Evaluated(Eval(cx, e, w).value, NoteRead(x, Eval(cx, e, w).world))
    decreases e, 0
  {
    NotesCommute(x, e.target, w);
    NotedEitherWay(cx, e.right, x, if e.aop.Plain? then w else NoteRead(e.target, w));
  }

  lemma {:induction false} NotedOperand(cx: Context, e: Expr, operand: Expr, x: string, w: World)
    requires e.Compare? && (operand == e.left || operand == e.right) && x !in Targets(operand)
    ensures EvalOperand(cx, e, operand, NoteRead(x, w)) ==
      Evaluated(EvalOperand(cx, e, operand, w).value, NoteRead(x, EvalOperand(cx, e, operand, w).world))
    decreases operand, 2
  {
    NotedEitherWay(cx, operand, x, w);
    NotedEitherWay(cx, operand, x, Eval(cx, operand, w).world);
  }

  lemma NotesCommute(x: string, y: string, w: World)
    ensures NoteRead(x, NoteRead(y, w)) == NoteRead(y, NoteRead(x, w))
  {
  }

  /** As a statement and as an expression `x op= value` does the same if `value` leaves `x` alone. */
  lemma CompoundAgrees(cx: Context, x: string, op: ArithOp, value: Expr, w: World, fuel: nat)
    requires x !in Targets(value)
    ensures Exec(cx, AssignStmt(x, Compound(op), value), w, fuel)
      == Exec(cx, ExprStmt(Assign(x, Compound(op), value)), w, fuel)
  {
    Untouched(cx, value, x, w);
    NotedEitherWay(cx, value, x, w);
  }

  /** If it does not, they differ: `x += (x = 1)` adds to the new value as a statement, and to the
      old one as an expression. */
  lemma CompoundDiffers(cx: Context, w: World, fuel: nat)
    ensures
      var value := Assign("x", Plain, Number(ONE));
      var stmt := Exec(cx, AssignStmt("x", Compound(Add), value), w, fuel);
      var expr := Exec(cx, ExprStmt(Assign("x", Compound(Add), value)), w, fuel);
      && stmt.Done? && Read(cx, "x", stmt.world) == cx.ops.add(ONE, ONE)
      && expr.Done? && Read(cx, "x", expr.world) == cx.ops.add(Read(cx, "x", w), ONE)
  {
    var value := Assign("x", Plain, Number(ONE));
    assert Eval(cx, value, w) == Evaluated(ONE, Write(cx, "x", ONE, w));
    assert Eval(cx, value, NoteRead("x", w)) == Evaluated(ONE, Write(cx, "x", ONE, NoteRead("x", w)));
  }

  /** In general the two forms leave the same variables if and only if the operator gives the same with
      the target as it was before the right side and as it is after; so they do whenever the right side
      leaves the target with the value it had, as in `x += (x = x)`. */
  lemma CompoundExactly(cx: Context, x: string, op: ArithOp, value: Expr, w: World, fuel: nat)
    ensures
      var r := Eval(cx, value, w);
      var before, after := Read(cx, x, w), Read(cx, x, r.world);
      var stmt := Exec(cx, AssignStmt(x, Compound(op), value), w, fuel).world;
      var expr := Exec(cx, ExprStmt(Assign(x, Compound(op), value)), w, fuel).world;
      && (Looks(cx, stmt, expr) <==> cx.ops.Arith(op, after, r.value) == cx.ops.Arith(op, before, r.value))
      && (after == before ==> Looks(cx, stmt, expr))
  {
    var r, r' := Eval(cx, value, w), Eval(cx, value, NoteRead(x, w));
    NotedLooks(cx, x, w);
    EvalLooks(cx, value, w, NoteRead(x, w));
    NotedLooks(cx, x, r.world);
    SameLooks(cx);
    WrittenLooks(cx, x, cx.ops.Arith(op, Read(cx, x, r.world), r.value), cx.ops.Arith(op, Read(cx, x, w), r.value),
                 NoteRead(x, r.world), r'.world);
    hide Looks, Eval;
  }

  lemma WrittenLooks(cx: Context, x: string, v: Double, v': Double, w: World, w': World)
    requires Looks(cx, w, w')
    ensures Looks(cx, Write(cx, x, v, w), Write(cx, x, v', w')) <==> v == v'
  {
    assert Read(cx, x, Write(cx, x, v, w)) == v && Read(cx, x, Write(cx, x, v', w')) == v';
    if v == v' { WriteLooks(cx, x, v, w, w'); }
  }
}

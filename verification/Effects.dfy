/** Expressions without side effects leave the world alone, and evaluating one twice is the
    same as evaluating it once. That is when the emitted double evaluation is harmless. */
module Effects {
  import opened Options
  import opened Syntax
  import opened Meaning

  /** Only the watch on early reads may differ. */
  ghost predicate SameCells(w: World, w': World) {
    w' == w.(early := w'.early) && w.early <= w'.early
  }

  lemma {:induction false} NoEffect(cx: Context, e: Expr, w: World)
    requires !HasSideEffects(e)
    ensures SameCells(w, Eval(cx, e, w).world)
    decreases e, 0
  {
    match e
    case Number(_) =>
    case Name(_) =>
    case Builtin(_) =>
    case Sign(_, operand) => NoEffect(cx, operand, w);
    case Arith(_, l, r) =>
      NoEffect(cx, l, w);
      NoEffect(cx, r, Eval(cx, l, w).world);
    case Compare(_, l, r) =>
      NoEffectOperand(cx, e, l, w);
      NoEffectOperand(cx, e, r, EvalOperand(cx, e, l, w).world);
    case And(l, r) =>
      NoEffect(cx, l, w);
      NoEffect(cx, r, Eval(cx, l, w).world);
    case Or(l, r) =>
      NoEffect(cx, l, w);
      NoEffect(cx, r, Eval(cx, l, w).world);
    case Conditional(c, t, f) =>
      NoEffect(cx, c, w);
      NoEffect(cx, t, Eval(cx, c, w).world);
      NoEffect(cx, f, Eval(cx, c, w).world);
  }

  lemma {:induction false} NoEffectOperand(cx: Context, e: Expr, operand: Expr, w: World)
    requires e.Compare? && (operand == e.left || operand == e.right) && !HasSideEffects(operand)
    ensures SameCells(w, EvalOperand(cx, e, operand, w).world)
    decreases operand, 1
  {
    NoEffect(cx, operand, w);
    NoEffect(cx, operand, Eval(cx, operand, w).world);
  }

  /** Where everything an effect-free expression reads is already known to be early, it
      evaluates to the same value and changes nothing at all. */
  lemma {:induction false} Settled(cx: Context, e: Expr, w: World, w': World)
    requires !HasSideEffects(e)
    requires w' == w.(early := w'.early) && Eval(cx, e, w).world.early <= w'.early
    ensures Eval(cx, e, w') == Evaluated(Eval(cx, e, w).value, w')
    decreases e, 0
  {
    match e
    case Number(_) =>
    case Name(_) =>
    case Builtin(_) =>
    case Sign(_, operand) => Settled(cx, operand, w, w');
    case Arith(_, l, r) =>
      var w1 := Eval(cx, l, w).world;
      NoEffect(cx, r, w1);
      NoEffect(cx, l, w);
      Settled(cx, l, w, w');
      Settled(cx, r, w1, w');
    case Compare(_, l, r) =>
      var w1 := EvalOperand(cx, e, l, w).world;
      NoEffectOperand(cx, e, l, w);
      NoEffectOperand(cx, e, r, w1);
      SettledOperand(cx, e, l, w, w');
      SettledOperand(cx, e, r, w1, w');
    case And(l, r) =>
      var w1 := Eval(cx, l, w).world;
      NoEffect(cx, l, w);
      NoEffect(cx, r, w1);
      Settled(cx, l, w, w');
      if cx.ops.Truthy(Eval(cx, l, w).value) { Settled(cx, r, w1, w'); }
    case Or(l, r) =>
      var w1 := Eval(cx, l, w).world;
      NoEffect(cx, l, w);
      NoEffect(cx, r, w1);
      Settled(cx, l, w, w');
      if !cx.ops.Truthy(Eval(cx, l, w).value) { Settled(cx, r, w1, w'); }
    case Conditional(c, t, f) =>
      var w1 := Eval(cx, c, w).world;
      NoEffect(cx, c, w);
      NoEffect(cx, t, w1);
      NoEffect(cx, f, w1);
      Settled(cx, c, w, w');
      if cx.ops.Truthy(Eval(cx, c, w).value) { Settled(cx, t, w1, w'); } else { Settled(cx, f, w1, w'); }
  }

  lemma {:induction false} SettledOperand(cx: Context, e: Expr, operand: Expr, w: World, w': World)
    requires e.Compare? && (operand == e.left || operand == e.right) && !HasSideEffects(operand)
    requires w' == w.(early := w'.early) && EvalOperand(cx, e, operand, w).world.early <= w'.early
    ensures EvalOperand(cx, e, operand, w') == Evaluated(EvalOperand(cx, e, operand, w).value, w')
    decreases operand, 1
  {
    var w1 := Eval(cx, operand, w).world;
    NoEffect(cx, operand, w);
    NoEffect(cx, operand, w1);
    Settled(cx, operand, w, w');
    if cx.reading.AsEmitted? && !ComparesNumbers(e) { Settled(cx, operand, w1, w'); }
  }

  /** Every comparison that the backend does not know to be numeric has operands without
      side effects. */
  predicate ComparesSafely(e: Expr) {
    match e
    case Number(_) => true
    case Name(_) => true
    case Builtin(_) => true
    case Assign(_, _, right) => ComparesSafely(right)
    case Sign(_, operand) => ComparesSafely(operand)
    case Increment(_, _, _) => true
    case Arith(_, l, r) => ComparesSafely(l) && ComparesSafely(r)
    case Compare(_, l, r) =>
      && ComparesSafely(l) && ComparesSafely(r)
      && (ComparesNumbers(e) || (!HasSideEffects(l) && !HasSideEffects(r)))
    case And(l, r) => ComparesSafely(l) && ComparesSafely(r)
    case Or(l, r) => ComparesSafely(l) && ComparesSafely(r)
    case Conditional(c, t, f) => ComparesSafely(c) && ComparesSafely(t) && ComparesSafely(f)
  }

  ghost predicate ReadingsOf(once: Context, twice: Context) {
    once.reading.AsWritten? && twice == once.(reading := AsEmitted)
  }

  /** On such expressions what is emitted means what is written. */
  lemma {:induction false} EvaluatedOnce(once: Context, twice: Context, e: Expr, w: World)
    requires ReadingsOf(once, twice) && ComparesSafely(e)
    ensures Eval(twice, e, w) == Eval(once, e, w)
    decreases e
  {
    match e
    case Number(_) =>
    case Name(_) =>
    case Builtin(_) =>
    case Assign(x, aop, right) => EvaluatedOnce(once, twice, right, if aop.Plain? then w else NoteRead(x, w));
    case Sign(_, operand) => EvaluatedOnce(once, twice, operand, w);
    case Increment(_, _, _) =>
    case Arith(_, l, r) =>
      EvaluatedOnce(once, twice, l, w);
      EvaluatedOnce(once, twice, r, Eval(once, l, w).world);
    case Compare(_, l, r) =>
      var w1 := Eval(once, l, w).world;
      EvaluatedOnce(once, twice, l, w);
      EvaluatedOnce(once, twice, r, w1);
      if !ComparesNumbers(e) {
        NoEffect(twice, l, w);
        Settled(twice, l, w, w1);
        NoEffect(twice, r, w1);
        Settled(twice, r, w1, Eval(once, r, w1).world);
      }
    case And(l, r) =>
      EvaluatedOnce(once, twice, l, w);
      EvaluatedOnce(once, twice, r, Eval(once, l, w).world);
    case Or(l, r) =>
      EvaluatedOnce(once, twice, l, w);
      EvaluatedOnce(once, twice, r, Eval(once, l, w).world);
    case Conditional(c, t, f) =>
      var w1 := Eval(once, c, w).world;
      EvaluatedOnce(once, twice, c, w);
      EvaluatedOnce(once, twice, t, w1);
      EvaluatedOnce(once, twice, f, w1);
  }
}

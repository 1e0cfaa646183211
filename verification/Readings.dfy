/** Statements and phases whose comparisons are safe mean the same whether operands are
    evaluated once, as written, or twice, as emitted; and fuel never changes a result. */
module Readings {
  import opened Options
  import opened Syntax
  import opened Meaning
  import opened Effects

  predicate AllCompareSafely(es: seq<Expr>) {
    forall e :: e in es ==> ComparesSafely(e)
  }

  /** Every comparison in the statement is safe. */
  predicate Safe(s: Stmt)
    decreases s
  {
    match s
    case AssignStmt(_, _, value) => ComparesSafely(value)
    case ExprStmt(e) => ComparesSafely(e)
    case Print(es) => AllCompareSafely(es)
    case Block(ss) => forall t :: t in ss ==> Safe(t)
    case If(c, t, e) => ComparesSafely(c) && Safe(t) && (e.Some? ==> Safe(e.value))
    case While(c, body) => ComparesSafely(c) && Safe(body)
    case DoWhile(body, c) => ComparesSafely(c) && Safe(body)
    case For(init, test, update, body) =>
      AllCompareSafely(init) && AllCompareSafely(update) && Safe(body) && (test.Some? ==> ComparesSafely(test.value))
    case ExitStmt(status) => status.Some? ==> ComparesSafely(status.value)
    case BreakStmt => true
    case ContinueStmt => true
    case NextStmt => true
    case NextFileStmt => true
  }

  predicate ActionSafe(action: Option<Action>) {
    action.Some? ==> forall s :: s in action.value ==> Safe(s)
  }

  predicate ItemSafe(item: RecordItem) {
    ActionSafe(item.action) && match item.pattern
      case Always => true
      case When(test) => ComparesSafely(test)
      case Range(left, right, _) => ComparesSafely(left) && ComparesSafely(right)
  }

  predicate PhaseSafe(phase: Phase) {
    match phase
    case Actions(actions) => forall a :: a in actions ==> ActionSafe(Some(a))
    case Items(items) => forall i :: i in items ==> ItemSafe(i)
  }

  lemma {:induction false} AllOnce(once: Context, twice: Context, es: seq<Expr>, w: World)
    requires ReadingsOf(once, twice) && AllCompareSafely(es)
    ensures EvalAll(twice, es, w) == EvalAll(once, es, w)
    decreases es
  {
    if es != [] {
      EvaluatedOnce(once, twice, es[0], w);
      AllOnce(once, twice, es[1..], Eval(once, es[0], w).world);
    }
  }

  lemma {:induction false} PrintedOnce(once: Context, twice: Context, es: seq<Expr>, index: nat, w: World)
    requires ReadingsOf(once, twice) && AllCompareSafely(es) && index <= |es|
    ensures PrintAll(twice, es, index, w) == PrintAll(once, es, index, w)
    decreases |es| - index
  {
    if index < |es| {
      var w1 := if index > 0 then Emit(PrintedSeparator, w) else w;
      EvaluatedOnce(once, twice, es[index], w1);
      var r := Eval(once, es[index], w1);
      PrintedOnce(once, twice, es, index + 1, Emit(PrintedNumber(r.value), r.world));
    }
  }

  lemma {:induction false} ExecutedOnce(once: Context, twice: Context, s: Stmt, w: World, fuel: nat)
    requires ReadingsOf(once, twice) && Safe(s)
    ensures Exec(twice, s, w, fuel) == Exec(once, s, w, fuel)
    decreases fuel, s, 1
  {
    hide Eval, EvalAll, PrintAll, ComparesSafely;
    match s
    case AssignStmt(_, _, value) => EvaluatedOnce(once, twice, value, w);
    case ExprStmt(e) => EvaluatedOnce(once, twice, e, w);
    case Print(es) => PrintedOnce(once, twice, es, 0, w);
    case Block(ss) => AllExecutedOnce(once, twice, ss, w, fuel);
    case If(c, t, e) =>
      EvaluatedOnce(once, twice, c, w);
      ExecutedOnce(once, twice, t, Eval(once, c, w).world, fuel);
      if e.Some? { ExecutedOnce(once, twice, e.value, Eval(once, c, w).world, fuel); }
    case While(c, body) =>
      if fuel > 0 {
        EvaluatedOnce(once, twice, c, w);
        var r := Eval(once, c, w);
        ExecutedOnce(once, twice, body, r.world, fuel);
        TurnedOnce(once, twice, s, Exec(once, body, r.world, fuel), fuel - 1);
      }
    case DoWhile(body, c) =>
      if fuel > 0 {
        ExecutedOnce(once, twice, body, w, fuel);
        TurnedOnce(once, twice, s, Exec(once, body, w, fuel), fuel - 1);
      }
    case For(init, _, _, _) =>
      AllOnce(once, twice, init, w);
      ForOnce(once, twice, s, EvalAll(once, init, w), fuel);
    case ExitStmt(status) => if status.Some? { EvaluatedOnce(once, twice, status.value, w); }
    case BreakStmt =>
    case ContinueStmt =>
    case NextStmt =>
    case NextFileStmt =>
  }

  lemma {:induction false} AllExecutedOnce(once: Context, twice: Context, ss: seq<Stmt>, w: World, fuel: nat)
    requires ReadingsOf(once, twice) && forall t :: t in ss ==> Safe(t)
    ensures ExecAll(twice, ss, w, fuel) == ExecAll(once, ss, w, fuel)
    decreases fuel, ss, 1
  {
    if ss != [] {
      ExecutedOnce(once, twice, ss[0], w, fuel);
      var r := Exec(once, ss[0], w, fuel);
      if r.Done? { AllExecutedOnce(once, twice, ss[1..], r.world, fuel); }
    }
  }

  lemma {:induction false} ForOnce(once: Context, twice: Context, s: Stmt, w: World, fuel: nat)
    requires ReadingsOf(once, twice) && s.For? && Safe(s)
    ensures ExecFor(twice, s, w, fuel) == ExecFor(once, s, w, fuel)
    decreases fuel, s, 0
  {
    if fuel > 0 {
      if s.test.Some? { EvaluatedOnce(once, twice, s.test.value, w); }
      var w1 := if s.test.None? then w else Eval(once, s.test.value, w).world;
      ExecutedOnce(once, twice, s.body, w1, fuel);
      TurnedOnce(once, twice, s, Exec(once, s.body, w1, fuel), fuel - 1);
    }
  }

  lemma {:induction false} TurnedOnce(once: Context, twice: Context, s: Stmt, body: Result, fuel: nat)
    requires ReadingsOf(once, twice) && (s.While? || s.DoWhile? || s.For?) && Safe(s)
    ensures AfterBody(twice, s, body, fuel) == AfterBody(once, s, body, fuel)
    decreases fuel, s, 2
  {
    if body.Done? {
      match s
      case While(_, _) => ExecutedOnce(once, twice, s, body.world, fuel);
      case For(_, _, update, _) =>
        AllOnce(once, twice, update, body.world);
        ForOnce(once, twice, s, EvalAll(once, update, body.world), fuel);
      case DoWhile(_, c) =>
        EvaluatedOnce(once, twice, c, body.world);
        ExecutedOnce(once, twice, s, Eval(once, c, body.world).world, fuel);
    }
  }

  lemma ItemOnce(once: Context, twice: Context, item: RecordItem, w: World, fuel: nat)
    requires ReadingsOf(once, twice) && ItemSafe(item)
    ensures ExecItem(twice, item, w, fuel) == ExecItem(once, item, w, fuel)
  {
    match item.pattern
    case Always => ActionOnce(once, twice, item.action, w, fuel);
    case When(test) =>
      EvaluatedOnce(once, twice, test, w);
      ActionOnce(once, twice, item.action, Eval(once, test, w).world, fuel);
    case Range(left, right, state) =>
      var w1 := NoteRead(state, w);
      EvaluatedOnce(once, twice, left, w1);
      RangeOnce(once, twice, item, w1, fuel);
      RangeOnce(once, twice, item, Eval(once, left, w1).world, fuel);
  }

  lemma ActionOnce(once: Context, twice: Context, action: Option<Action>, w: World, fuel: nat)
    requires ReadingsOf(once, twice) && ActionSafe(action)
    ensures ExecAction(twice, action, w, fuel) == ExecAction(once, action, w, fuel)
  {
    if action.Some? { AllExecutedOnce(once, twice, action.value, w, fuel); }
  }

  lemma RangeOnce(once: Context, twice: Context, item: RecordItem, w: World, fuel: nat)
    requires ReadingsOf(once, twice) && ItemSafe(item) && item.pattern.Range?
    ensures
      var right, state := item.pattern.right, item.pattern.state;
      EndRange(twice, right, state, ExecAction(twice, item.action, w, fuel))
        == EndRange(once, right, state, ExecAction(once, item.action, w, fuel))
  {
    ActionOnce(once, twice, item.action, w, fuel);
    var r := ExecAction(once, item.action, w, fuel);
    if r.Done? { EvaluatedOnce(once, twice, item.pattern.right, r.world); }
  }

  lemma {:induction false} ActionsOnce(once: Context, twice: Context, actions: seq<Action>, w: World, fuel: nat)
    requires ReadingsOf(once, twice) && forall a :: a in actions ==> ActionSafe(Some(a))
    ensures ExecActions(twice, actions, w, fuel) == ExecActions(once, actions, w, fuel)
    decreases actions
  {
    if actions != [] {
      ActionOnce(once, twice, Some(actions[0]), w, fuel);
      var r := ExecAll(once, actions[0], w, fuel);
      if r.Done? { ActionsOnce(once, twice, actions[1..], r.world, fuel); }
    }
  }

  lemma {:induction false} ItemsOnce(once: Context, twice: Context, items: seq<RecordItem>, w: World, fuel: nat)
    requires ReadingsOf(once, twice) && forall i :: i in items ==> ItemSafe(i)
    ensures ExecItems(twice, items, w, fuel) == ExecItems(once, items, w, fuel)
    decreases items
  {
    if items != [] {
      ItemOnce(once, twice, items[0], w, fuel);
      var r := ExecItem(once, items[0], w, fuel);
      if r.Done? { ItemsOnce(once, twice, items[1..], r.world, fuel); }
    }
  }

  /** A phase with safe comparisons means what it says. */
  lemma PhaseOnce(once: Context, twice: Context, phase: Phase, w: World, fuel: nat)
    requires ReadingsOf(once, twice) && PhaseSafe(phase)
    ensures ExecPhase(twice, phase, w, fuel) == ExecPhase(once, phase, w, fuel)
  {
    match phase
    case Actions(actions) => ActionsOnce(once, twice, actions, w, fuel);
    case Items(items) => ItemsOnce(once, twice, items, w, fuel);
  }

  // ----- Fuel -----

  /** More fuel never changes a result, so what a statement does is well defined. */
  lemma {:induction false} MoreFuel(cx: Context, s: Stmt, w: World, less: nat, more: nat)
    requires less <= more && Exec(cx, s, w, less).Done?
    ensures Exec(cx, s, w, more) == Exec(cx, s, w, less)
    decreases less, s, 1
  {
    match s
    case Block(ss) => MoreFuelAll(cx, ss, w, less, more);
    case If(c, t, e) =>
      var r := Eval(cx, c, w);
      if cx.ops.Truthy(r.value) { MoreFuel(cx, t, r.world, less, more); }
      else if e.Some? { MoreFuel(cx, e.value, r.world, less, more); }
    case While(c, body) =>
      var r := Eval(cx, c, w);
      if cx.ops.Truthy(r.value) {
        MoreFuel(cx, body, r.world, less, more);
        MoreFuelTurn(cx, s, Exec(cx, body, r.world, less), less - 1, more - 1);
      }
    case DoWhile(body, _) =>
      MoreFuel(cx, body, w, less, more);
      MoreFuelTurn(cx, s, Exec(cx, body, w, less), less - 1, more - 1);
    case For(init, _, _, _) => MoreFuelFor(cx, s, EvalAll(cx, init, w), less, more);
    case _ =>
  }

  lemma {:induction false} MoreFuelAll(cx: Context, ss: seq<Stmt>, w: World, less: nat, more: nat)
    requires less <= more && ExecAll(cx, ss, w, less).Done?
    ensures ExecAll(cx, ss, w, more) == ExecAll(cx, ss, w, less)
    decreases less, ss, 1
  {
    if ss != [] {
      MoreFuel(cx, ss[0], w, less, more);
      var r := Exec(cx, ss[0], w, less);
      if r.outcome.Normal? { MoreFuelAll(cx, ss[1..], r.world, less, more); }
    }
  }

  lemma {:induction false} MoreFuelFor(cx: Context, s: Stmt, w: World, less: nat, more: nat)
    requires less <= more && s.For? && ExecFor(cx, s, w, less).Done?
    ensures ExecFor(cx, s, w, more) == ExecFor(cx, s, w, less)
    decreases less, s, 0
  {
    var r := if s.test.None? then Evaluated(ONE, w) else Eval(cx, s.test.value, w);
    if s.test.None? || cx.ops.Truthy(r.value) {
      MoreFuel(cx, s.body, r.world, less, more);
      MoreFuelTurn(cx, s, Exec(cx, s.body, r.world, less), less - 1, more - 1);
    }
  }

  lemma {:induction false} MoreFuelTurn(cx: Context, s: Stmt, body: Result, less: nat, more: nat)
    requires less <= more && (s.While? || s.DoWhile? || s.For?) && AfterBody(cx, s, body, less).Done?
    ensures AfterBody(cx, s, body, more) == AfterBody(cx, s, body, less)
    decreases less, s, 2
  {
    if body.outcome.Normal? || body.outcome.Continued? {
      match s
      case While(_, _) => MoreFuel(cx, s, body.world, less, more);
      case For(_, _, update, _) => MoreFuelFor(cx, s, EvalAll(cx, update, body.world), less, more);
      case DoWhile(_, c) =>
        var r := Eval(cx, c, body.world);
        if cx.ops.Truthy(r.value) { MoreFuel(cx, s, r.world, less, more); }
    }
  }

  lemma MoreFuelAction(cx: Context, action: Option<Action>, w: World, less: nat, more: nat)
    requires less <= more && ExecAction(cx, action, w, less).Done?
    ensures ExecAction(cx, action, w, more) == ExecAction(cx, action, w, less)
  {
    if action.Some? { MoreFuelAll(cx, action.value, w, less, more); }
  }

  lemma MoreFuelItem(cx: Context, item: RecordItem, w: World, less: nat, more: nat)
    requires less <= more && ExecItem(cx, item, w, less).Done?
    ensures ExecItem(cx, item, w, more) == ExecItem(cx, item, w, less)
  {
    match item.pattern
    case Always => MoreFuelAction(cx, item.action, w, less, more);
    case When(test) =>
      var r := Eval(cx, test, w);
      if cx.ops.Truthy(r.value) { MoreFuelAction(cx, item.action, r.world, less, more); }
    case Range(left, _, state) =>
      var w1 := NoteRead(state, w);
      var r := Eval(cx, left, w1);
      if cx.ops.Truthy(Read(cx, state, w)) { MoreFuelAction(cx, item.action, w1, less, more); }
      else if cx.ops.Truthy(r.value) { MoreFuelAction(cx, item.action, r.world, less, more); }
  }

  lemma {:induction false} MoreFuelActions(cx: Context, actions: seq<Action>, w: World, less: nat, more: nat)
    requires less <= more && ExecActions(cx, actions, w, less).Done?
    ensures ExecActions(cx, actions, w, more) == ExecActions(cx, actions, w, less)
    decreases actions
  {
    if actions != [] {
      MoreFuelAll(cx, actions[0], w, less, more);
      var r := ExecAll(cx, actions[0], w, less);
      if r.outcome.Normal? { MoreFuelActions(cx, actions[1..], r.world, less, more); }
    }
  }

  lemma {:induction false} MoreFuelItems(cx: Context, items: seq<RecordItem>, w: World, less: nat, more: nat)
    requires less <= more && ExecItems(cx, items, w, less).Done?
    ensures ExecItems(cx, items, w, more) == ExecItems(cx, items, w, less)
    decreases items
  {
    if items != [] {
      MoreFuelItem(cx, items[0], w, less, more);
      var r := ExecItem(cx, items[0], w, less);
      if r.outcome.Normal? { MoreFuelItems(cx, items[1..], r.world, less, more); }
    }
  }

  lemma MoreFuelPhase(cx: Context, phase: Phase, w: World, less: nat, more: nat)
    requires less <= more && ExecPhase(cx, phase, w, less).Done?
    ensures ExecPhase(cx, phase, w, more) == ExecPhase(cx, phase, w, less)
  {
    match phase
    case Actions(actions) => MoreFuelActions(cx, actions, w, less, more);
    case Items(items) => MoreFuelItems(cx, items, w, less, more);
  }
}

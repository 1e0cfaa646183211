/** The analysis is sound: in every run of a phase, a name it calls local is written before it
    is read, over all branches and loop turns and every way out. */
module ResidencySound {
  import opened Options
  import opened Syntax
  import opened Meaning
  import opened Effects
  import opened Residency

  // ----- The programs the analysis is right about -----

  /** The variables an expression may write. */
  function Targets(e: Expr): set<string> {
    match e
    case Assign(x, _, right) => {x} + Targets(right)
    case Sign(_, operand) => Targets(operand)
    case Increment(x, _, _) => {x}
    case Arith(_, l, r) => Targets(l) + Targets(r)
    case Compare(_, l, r) => Targets(l) + Targets(r)
    case And(l, r) => Targets(l) + Targets(r)
    case Or(l, r) => Targets(l) + Targets(r)
    case Conditional(c, t, f) => Targets(c) + Targets(t) + Targets(f)
    case _ => {}
  }

  /** No variable is written in a right operand of `&&` or `||`, which may not run, and none is
      written by the right side of a compound assignment to it, which reads it first. */
  predicate Orderly(e: Expr) {
    match e
    case Assign(x, aop, right) => Orderly(right) && (aop.Compound? ==> x !in Targets(right))
    case Sign(_, operand) => Orderly(operand)
    case Arith(_, l, r) => Orderly(l) && Orderly(r)
    case Compare(_, l, r) => Orderly(l) && Orderly(r)
    case And(l, r) => Orderly(l) && Orderly(r) && Targets(r) == {}
    case Or(l, r) => Orderly(l) && Orderly(r) && Targets(r) == {}
    case Conditional(c, t, f) => Orderly(c) && Orderly(t) && Orderly(f)
    case _ => true
  }

  predicate AllOrderly(es: seq<Expr>) {
    forall e :: e in es ==> Orderly(e)
  }

  /** A `continue` goes straight to a condition that comes before the body, and `exit` has no
      value, which the analysis does not look at. */
  predicate OrderlyStmt(s: Stmt, mayContinue: bool)
    decreases s
  {
    match s
    case AssignStmt(_, _, value) => Orderly(value)
    case ExprStmt(e) => Orderly(e)
    case Print(es) => AllOrderly(es)
    case Block(ss) => forall t :: t in ss ==> OrderlyStmt(t, mayContinue)
    case If(c, t, e) => Orderly(c) && OrderlyStmt(t, mayContinue) && (e.Some? ==> OrderlyStmt(e.value, mayContinue))
    case While(c, body) => Orderly(c) && OrderlyStmt(body, true)
    case DoWhile(body, c) => Orderly(c) && OrderlyStmt(body, false)
    case For(init, test, update, body) =>
      AllOrderly(init) && AllOrderly(update) && (test.Some? ==> Orderly(test.value)) && OrderlyStmt(body, false)
    case ContinueStmt => mayContinue
    case ExitStmt(status) => status.None?
    case BreakStmt => true
    case NextStmt => true
    case NextFileStmt => true
  }

  predicate OrderlyAction(action: Action) {
    forall s :: s in action ==> OrderlyStmt(s, true)
  }

  predicate OrderlyItem(item: RecordItem) {
    && (item.action.Some? ==> OrderlyAction(item.action.value))
    && match item.pattern
       case Always => true
       case When(test) => Orderly(test)
       case Range(left, right, state) => Orderly(left) && Orderly(right) && RangeName(state)
  }

  predicate OrderlyPhase(phase: Phase) {
    match phase
    case Actions(actions) => forall a :: a in actions ==> OrderlyAction(a)
    case Items(items) => forall i :: i in items ==> OrderlyItem(i)
  }

  function AnalyzePhase(tracked: set<string>, phase: Phase): Analysis {
    match phase
    case Actions(actions) => AnalyzeActions(tracked, actions, {})
    case Items(items) => AnalyzeItems(tracked, items, {})
  }

  // ----- What a run may do -----

  /** From `w` to `w'` only names the analysis says so are read before they are written. */
  ghost predicate Watched(tracked: set<string>, r: Analysis, w: World, w': World) {
    && w.written <= w'.written && w.early <= w'.early
    && forall x :: x in w'.early && x in tracked ==> x in w.early || x in r.readBefore
  }

  /** And the names it says are assigned have been. */
  ghost predicate Assigns(tracked: set<string>, r: Analysis, w: World, w': World) {
    Watched(tracked, r, w, w') && r.assignedAfter <= w'.written
  }

  lemma ThenAssigns(tracked: set<string>, first: Analysis, second: Analysis, w: World, w1: World, w2: World)
    requires Watched(tracked, first, w, w1) && Assigns(tracked, second, w1, w2)
    ensures Assigns(tracked, Then(first, second), w, w2)
  {
  }

  lemma {:induction false} AssignsTargets(tracked: set<string>, e: Expr, definite: set<string>)
    ensures var after := AnalyzeExpr(tracked, e, definite).assignedAfter; definite <= after <= definite + Targets(e)
  {
    match e
    case Assign(_, _, right) => AssignsTargets(tracked, right, definite);
    case Sign(_, operand) => AssignsTargets(tracked, operand, definite);
    case Arith(_, l, r) =>
      AssignsTargets(tracked, l, definite);
      AssignsTargets(tracked, r, AnalyzeExpr(tracked, l, definite).assignedAfter);
    case Compare(_, l, r) =>
      AssignsTargets(tracked, l, definite);
      AssignsTargets(tracked, r, AnalyzeExpr(tracked, l, definite).assignedAfter);
    case And(l, r) =>
      AssignsTargets(tracked, l, definite);
      AssignsTargets(tracked, r, AnalyzeExpr(tracked, l, definite).assignedAfter);
    case Or(l, r) =>
      AssignsTargets(tracked, l, definite);
      AssignsTargets(tracked, r, AnalyzeExpr(tracked, l, definite).assignedAfter);
    case Conditional(c, t, f) =>
      var test := AnalyzeExpr(tracked, c, definite);
      AssignsTargets(tracked, c, definite);
      AssignsTargets(tracked, t, test.assignedAfter);
      AssignsTargets(tracked, f, test.assignedAfter);
    case _ =>
  }

  lemma {:induction false} SoundExpr(cx: Context, tracked: set<string>, e: Expr, definite: set<string>, w: World)
    requires Orderly(e) && definite <= w.written
    ensures Assigns(tracked, AnalyzeExpr(tracked, e, definite), w, Eval(cx, e, w).world)
    decreases e, 1
  {
    match e
    case Number(_) =>
    case Name(_) =>
    case Builtin(_) =>
    case Assign(_, _, _) => SoundAssign(cx, tracked, e, definite, w);
    case Sign(_, operand) => SoundExpr(cx, tracked, operand, definite, w);
    case Increment(_, _, _) =>
    case Arith(_, l, r) =>
      SoundExpr(cx, tracked, l, definite, w);
      SoundExpr(cx, tracked, r, AnalyzeExpr(tracked, l, definite).assignedAfter, Eval(cx, l, w).world);
    case Compare(_, l, r) =>
      SoundOperand(cx, tracked, e, l, definite, w);
      SoundOperand(cx, tracked, e, r, AnalyzeExpr(tracked, l, definite).assignedAfter, EvalOperand(cx, e, l, w).world);
    case And(_, _) => SoundLogical(cx, tracked, e, definite, w);
    case Or(_, _) => SoundLogical(cx, tracked, e, definite, w);
    case Conditional(_, _, _) => SoundConditional(cx, tracked, e, definite, w);
  }

  lemma {:induction false} SoundAssign(cx: Context, tracked: set<string>, e: Expr, definite: set<string>, w: World)
    requires e.Assign? && Orderly(e) && definite <= w.written
    ensures Assigns(tracked, AnalyzeExpr(tracked, e, definite), w, Eval(cx, e, w).world)
    decreases e, 0
  {
    AssignsTargets(tracked, e.right, definite);
    SoundExpr(cx, tracked, e.right, definite, if e.aop.Plain? then w else NoteRead(e.target, w));
  }

  lemma {:induction false} SoundLogical(cx: Context, tracked: set<string>, e: Expr, definite: set<string>, w: World)
    requires (e.And? || e.Or?) && Orderly(e) && definite <= w.written
    ensures Assigns(tracked, AnalyzeExpr(tracked, e, definite), w, Eval(cx, e, w).world)
    decreases e, 0
  {
    var left := AnalyzeExpr(tracked, e.left, definite);
    SoundExpr(cx, tracked, e.left, definite, w);
    SoundExpr(cx, tracked, e.right, left.assignedAfter, Eval(cx, e.left, w).world);
    AssignsTargets(tracked, e.right, left.assignedAfter);
  }

  lemma {:induction false} SoundConditional(cx: Context, tracked: set<string>, e: Expr, definite: set<string>, w: World)
    requires e.Conditional? && Orderly(e) && definite <= w.written
    ensures Assigns(tracked, AnalyzeExpr(tracked, e, definite), w, Eval(cx, e, w).world)
    decreases e, 0
  {
    var test, w1 := AnalyzeExpr(tracked, e.test, definite), Eval(cx, e.test, w).world;
    SoundExpr(cx, tracked, e.test, definite, w);
    SoundExpr(cx, tracked, e.ifTrue, test.assignedAfter, w1);
    SoundExpr(cx, tracked, e.ifFalse, test.assignedAfter, w1);
  }

  lemma {:induction false} SoundOperand(cx: Context, tracked: set<string>, e: Expr, operand: Expr,
                                        definite: set<string>, w: World)
    requires e.Compare? && (operand == e.left || operand == e.right) && Orderly(operand) && definite <= w.written
    ensures Assigns(tracked, AnalyzeExpr(tracked, operand, definite), w, EvalOperand(cx, e, operand, w).world)
    decreases operand, 2
  {
    SoundExpr(cx, tracked, operand, definite, w);
    SoundExpr(cx, tracked, operand, definite, Eval(cx, operand, w).world);
  }

  lemma {:induction false} SoundAll(cx: Context, tracked: set<string>, es: seq<Expr>, definite: set<string>, w: World)
    requires AllOrderly(es) && definite <= w.written
    ensures Assigns(tracked, AnalyzeAll(tracked, es, definite), w, EvalAll(cx, es, w))
    decreases es
  {
    if es != [] {
      hide Eval, AnalyzeExpr, Orderly;
      var first, w1 := AnalyzeExpr(tracked, es[0], definite), Eval(cx, es[0], w).world;
      SoundExpr(cx, tracked, es[0], definite, w);
      SoundAll(cx, tracked, es[1..], first.assignedAfter, w1);
      ThenAssigns(tracked, first, AnalyzeAll(tracked, es[1..], first.assignedAfter), w, w1, EvalAll(cx, es, w));
    }
  }

  lemma {:induction false} SoundPrint(cx: Context, tracked: set<string>, es: seq<Expr>, index: nat,
                                      definite: set<string>, w: World)
    requires AllOrderly(es) && index <= |es| && definite <= w.written
    ensures Assigns(tracked, AnalyzeAll(tracked, es[index..], definite), w, PrintAll(cx, es, index, w))
    decreases |es| - index
  {
    if index < |es| {
      hide Eval, AnalyzeExpr, Orderly;
      var w1 := if index > 0 then Emit(PrintedSeparator, w) else w;
      var first, r := AnalyzeExpr(tracked, es[index], definite), Eval(cx, es[index], w1);
      var w2 := Emit(PrintedNumber(r.value), r.world);
      SoundExpr(cx, tracked, es[index], definite, w1);
      SoundPrint(cx, tracked, es, index + 1, first.assignedAfter, w2);
      assert es[index..][1..] == es[index + 1..];
      ThenAssigns(tracked, first, AnalyzeAll(tracked, es[index + 1..], first.assignedAfter),
                  w, w2, PrintAll(cx, es, index, w));
    }
  }

  /** Where a run stands, ended or not: assigned names are sure only where control has fallen
      through. */
  ghost predicate Stands(tracked: set<string>, r: Analysis, w: World, result: Result) {
    Watched(tracked, r, w, result.world)
      && (result.Done? && result.outcome.Normal? ==> r.assignedAfter <= result.world.written)
  }

  /** Control after `first` goes on to `second`, whatever the result. */
  lemma ThenStands(tracked: set<string>, first: Analysis, second: Analysis, w: World, w1: World, result: Result)
    requires Watched(tracked, first, w, w1) && Stands(tracked, second, w1, result)
    ensures Stands(tracked, Then(first, second), w, result)
  {
  }

  lemma {:induction false} SoundStmt(cx: Context, tracked: set<string>, s: Stmt, mayContinue: bool,
                                     definite: set<string>, w: World, fuel: nat)
    requires OrderlyStmt(s, mayContinue) && definite <= w.written
    ensures
      var result := Exec(cx, s, w, fuel);
      Stands(tracked, AnalyzeStmt(tracked, s, definite), w, result)
        && (result.Done? && result.outcome.Continued? ==> mayContinue)
    decreases fuel, s, 1
  {
    hide Eval, AnalyzeExpr, Orderly, EvalAll, AnalyzeAll, AllOrderly;
    match s
    case AssignStmt(_, _, value) => SoundExpr(cx, tracked, value, definite, w);
    case ExprStmt(e) => SoundExpr(cx, tracked, e, definite, w);
    case Print(es) =>
      assert es[0..] == es;
      SoundPrint(cx, tracked, es, 0, definite, w);
      NoArguments(tracked, es, definite);
    case Block(ss) => SoundStmts(cx, tracked, ss, mayContinue, definite, w, fuel);
    case If(_, _, _) => SoundIf(cx, tracked, s, mayContinue, definite, w, fuel);
    case While(_, _) => SoundWhile(cx, tracked, s, definite, w, fuel);
    case DoWhile(_, _) => SoundDo(cx, tracked, s, definite, w, fuel);
    case For(init, _, _, _) =>
      var start, w1 := AnalyzeAll(tracked, init, definite), EvalAll(cx, init, w);
      SoundAll(cx, tracked, init, definite, w);
      SoundFor(cx, tracked, s, start.assignedAfter, w1, fuel);
      ThenStands(tracked, start, AnalyzeTurn(tracked, s, start.assignedAfter), w, w1, ExecFor(cx, s, w1, fuel));
    case BreakStmt =>
    case ContinueStmt =>
    case NextStmt =>
    case NextFileStmt =>
    case ExitStmt(_) =>
  }

  lemma {:induction false} SoundIf(cx: Context, tracked: set<string>, s: Stmt, mayContinue: bool,
                                   definite: set<string>, w: World, fuel: nat)
    requires s.If? && OrderlyStmt(s, mayContinue) && definite <= w.written
    ensures
      var result := Exec(cx, s, w, fuel);
      Stands(tracked, AnalyzeStmt(tracked, s, definite), w, result)
        && (result.Done? && result.outcome.Continued? ==> mayContinue)
    decreases fuel, s, 0
  {
    hide Eval, AnalyzeExpr, Orderly;
    var test, r := AnalyzeExpr(tracked, s.condition, definite), Eval(cx, s.condition, w);
    SoundExpr(cx, tracked, s.condition, definite, w);
    SoundStmt(cx, tracked, s.thenBranch, mayContinue, test.assignedAfter, r.world, fuel);
    if s.elseBranch.Some? {
      SoundStmt(cx, tracked, s.elseBranch.value, mayContinue, test.assignedAfter, r.world, fuel);
    }
  }

  lemma NoArguments(tracked: set<string>, es: seq<Expr>, definite: set<string>)
    ensures es == [] ==> AnalyzeAll(tracked, es, definite) == Nothing(definite)
  {
  }

  lemma {:induction false} SoundStmts(cx: Context, tracked: set<string>, ss: seq<Stmt>, mayContinue: bool,
                                      definite: set<string>, w: World, fuel: nat)
    requires (forall t :: t in ss ==> OrderlyStmt(t, mayContinue)) && definite <= w.written
    ensures
      var result := ExecAll(cx, ss, w, fuel);
      Stands(tracked, AnalyzeStmts(tracked, ss, definite), w, result)
        && (result.Done? && result.outcome.Continued? ==> mayContinue)
    decreases fuel, ss, 1
  {
    if ss != [] {
      hide Exec, AnalyzeStmt, OrderlyStmt;
      var first, r := AnalyzeStmt(tracked, ss[0], definite), Exec(cx, ss[0], w, fuel);
      SoundStmt(cx, tracked, ss[0], mayContinue, definite, w, fuel);
      if r.Done? && r.outcome.Normal? {
        SoundStmts(cx, tracked, ss[1..], mayContinue, first.assignedAfter, r.world, fuel);
        ThenStands(tracked, first, AnalyzeStmts(tracked, ss[1..], first.assignedAfter),
                   w, r.world, ExecAll(cx, ss, w, fuel));
      }
    }
  }

  lemma {:induction false} SoundWhile(cx: Context, tracked: set<string>, s: Stmt,
                                      definite: set<string>, w: World, fuel: nat)
    requires s.While? && OrderlyStmt(s, true) && definite <= w.written
    ensures
      var result := Exec(cx, s, w, fuel);
      Stands(tracked, AnalyzeStmt(tracked, s, definite), w, result) && (result.Done? ==> !result.outcome.Continued?)
    decreases fuel, s, 0
  {
    hide Eval, AnalyzeExpr, Orderly;
    var test, r := AnalyzeExpr(tracked, s.condition, definite), Eval(cx, s.condition, w);
    SoundExpr(cx, tracked, s.condition, definite, w);
    if fuel > 0 && cx.ops.Truthy(r.value) {
      var body := Exec(cx, s.body, r.world, fuel);
      SoundStmt(cx, tracked, s.body, true, test.assignedAfter, r.world, fuel);
      if body.Done? && (body.outcome.Normal? || body.outcome.Continued?) {
        SoundWhile(cx, tracked, s, definite, body.world, fuel - 1);
      }
    }
  }

  lemma {:induction false} SoundDo(cx: Context, tracked: set<string>, s: Stmt,
                                   definite: set<string>, w: World, fuel: nat)
    requires s.DoWhile? && OrderlyStmt(s, true) && definite <= w.written
    ensures
      var result := Exec(cx, s, w, fuel);
      Stands(tracked, AnalyzeStmt(tracked, s, definite), w, result) && (result.Done? ==> !result.outcome.Continued?)
    decreases fuel, s, 0
  {
    hide Eval, AnalyzeExpr, Orderly;
    var body := Exec(cx, s.body, w, fuel);
    SoundStmt(cx, tracked, s.body, false, definite, w, fuel);
    if fuel > 0 && body.Done? && body.outcome.Normal? {
      var first, r := AnalyzeStmt(tracked, s.body, definite), Eval(cx, s.condition, body.world);
      SoundExpr(cx, tracked, s.condition, first.assignedAfter, body.world);
      if cx.ops.Truthy(r.value) { SoundDo(cx, tracked, s, definite, r.world, fuel - 1); }
    }
  }

  lemma {:induction false} SoundFor(cx: Context, tracked: set<string>, s: Stmt,
                                    definite: set<string>, w: World, fuel: nat)
    requires s.For? && OrderlyStmt(s, true) && definite <= w.written
    ensures
      var result := ExecFor(cx, s, w, fuel);
      Stands(tracked, AnalyzeTurn(tracked, s, definite), w, result) && (result.Done? ==> !result.outcome.Continued?)
    decreases fuel, s, 0
  {
    hide Eval, AnalyzeExpr, Orderly, EvalAll, AnalyzeAll;
    if fuel > 0 {
      var test := AnalyzeTest(tracked, s.test, definite);
      var r := if s.test.None? then Evaluated(ONE, w) else Eval(cx, s.test.value, w);
      if s.test.Some? { SoundExpr(cx, tracked, s.test.value, definite, w); }
      if s.test.None? || cx.ops.Truthy(r.value) {
        var body := Exec(cx, s.body, r.world, fuel);
        SoundStmt(cx, tracked, s.body, false, test.assignedAfter, r.world, fuel);
        if body.Done? && body.outcome.Normal? {
          var turn := AnalyzeStmt(tracked, s.body, test.assignedAfter);
          SoundAll(cx, tracked, s.update, turn.assignedAfter, body.world);
          SoundFor(cx, tracked, s, definite, EvalAll(cx, s.update, body.world), fuel - 1);
        }
      }
    }
  }

  // ----- Phases -----

  lemma {:induction false} SoundActions(cx: Context, tracked: set<string>, actions: seq<Action>,
                                        definite: set<string>, w: World, fuel: nat)
    requires (forall a :: a in actions ==> OrderlyAction(a)) && definite <= w.written
    ensures Stands(tracked, AnalyzeActions(tracked, actions, definite), w, ExecActions(cx, actions, w, fuel))
    decreases actions
  {
    if actions != [] {
      hide ExecAll, AnalyzeStmts;
      var first, r := AnalyzeStmts(tracked, actions[0], definite), ExecAll(cx, actions[0], w, fuel);
      assert OrderlyAction(actions[0]);
      SoundStmts(cx, tracked, actions[0], true, definite, w, fuel);
      if r.Done? && r.outcome.Normal? {
        SoundActions(cx, tracked, actions[1..], first.assignedAfter, r.world, fuel);
        ThenStands(tracked, first, AnalyzeActions(tracked, actions[1..], first.assignedAfter), w, r.world,
                   ExecActions(cx, actions, w, fuel));
      }
    }
  }

  ghost predicate NoRangeName(tracked: set<string>) {
    forall x :: x in tracked ==> !RangeName(x)
  }

  lemma SoundItem(cx: Context, tracked: set<string>, item: RecordItem, definite: set<string>, w: World, fuel: nat)
    requires OrderlyItem(item) && NoRangeName(tracked) && definite <= w.written
    ensures Stands(tracked, AnalyzeItem(tracked, item, definite), w, ExecItem(cx, item, w, fuel))
  {
    hide ExecAll, AnalyzeStmts, Eval, AnalyzeExpr, Orderly, OrderlyStmt;
    match item.pattern
    case Always => if item.action.Some? { SoundStmts(cx, tracked, item.action.value, true, definite, w, fuel); }
    case When(test) =>
      var t, r := AnalyzeExpr(tracked, test, definite), Eval(cx, test, w);
      SoundExpr(cx, tracked, test, definite, w);
      if item.action.Some? { SoundStmts(cx, tracked, item.action.value, true, t.assignedAfter, r.world, fuel); }
    case Range(left, right, state) =>
      var w1 := NoteRead(state, w);
      SoundExpr(cx, tracked, left, definite, w1);
      SoundRange(cx, tracked, item, definite, w1, fuel);
      SoundRange(cx, tracked, item, definite, Eval(cx, left, w1).world, fuel);
  }

  /** The action of a range and its right pattern; the flag itself is no tracked name. */
  lemma SoundRange(cx: Context, tracked: set<string>, item: RecordItem, definite: set<string>, w: World, fuel: nat)
    requires item.pattern.Range? && OrderlyItem(item) && NoRangeName(tracked) && definite <= w.written
    ensures
      var right, state := item.pattern.right, item.pattern.state;
      var r := EndRange(cx, right, state, ExecAction(cx, item.action, w, fuel));
      var action := if item.action.Some? then AnalyzeStmts(tracked, item.action.value, definite) else Nothing(definite);
      Stands(tracked, Ending(definite, Then(AnalyzeExpr(tracked, right, definite), action)), w, r)
  {
    hide ExecAll, AnalyzeStmts, Eval, AnalyzeExpr, Orderly, OrderlyStmt;
    var result := ExecAction(cx, item.action, w, fuel);
    if item.action.Some? { SoundStmts(cx, tracked, item.action.value, true, definite, w, fuel); }
    if result.Done? && definite <= result.world.written {
      SoundExpr(cx, tracked, item.pattern.right, definite, result.world);
    }
  }

  lemma {:induction false} SoundItems(cx: Context, tracked: set<string>, items: seq<RecordItem>,
                                      definite: set<string>, w: World, fuel: nat)
    requires (forall i :: i in items ==> OrderlyItem(i)) && NoRangeName(tracked) && definite <= w.written
    ensures Stands(tracked, AnalyzeItems(tracked, items, definite), w, ExecItems(cx, items, w, fuel))
    decreases items
  {
    if items != [] {
      hide ExecItem, AnalyzeItem, OrderlyItem;
      var first, r := AnalyzeItem(tracked, items[0], definite), ExecItem(cx, items[0], w, fuel);
      SoundItem(cx, tracked, items[0], definite, w, fuel);
      if r.Done? && r.outcome.Normal? {
        SoundItems(cx, tracked, items[1..], first.assignedAfter, r.world, fuel);
        ThenStands(tracked, first, AnalyzeItems(tracked, items[1..], first.assignedAfter), w,
                   r.world, ExecItems(cx, items, w, fuel));
      }
    }
  }

  /** In every run of a phase, one that never ends included, a tracked name the analysis does not
      list as read first is written before it is read: however much fuel there is, no such name
      has been read early when the run ends or the fuel does. */
  lemma PhaseSound(cx: Context, tracked: set<string>, phase: Phase, w: World, fuel: nat)
    requires OrderlyPhase(phase) && NoRangeName(tracked) && w.early == {}
    ensures forall x :: x in ExecPhase(cx, phase, w, fuel).world.early && x in tracked ==>
      x in AnalyzePhase(tracked, phase).readBefore
  {
    match phase
    case Actions(actions) => SoundActions(cx, tracked, actions, {}, w, fuel);
    case Items(items) => SoundItems(cx, tracked, items, {}, w, fuel);
  }
}

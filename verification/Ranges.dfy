/** When a range opens: the flag is stored only after the action has run, so an action that leaves
    the record leaves the flag as it was, and the right pattern is read after the action. */
module Ranges {
  import opened Options
  import opened Syntax
  import opened Meaning
  import opened ResidencySound
  import opened Deviations

  // ----- Actions that fall through -----

  /** Control falls off the end, whatever the variables hold: nothing leaves the record, and
      `break` and `continue` have a loop to go to. */
  predicate FallsThrough(s: Stmt, inLoop: bool)
    decreases s
  {
    match s
    case Block(ss) => forall t :: t in ss ==> FallsThrough(t, inLoop)
    case If(_, t, e) => FallsThrough(t, inLoop) && (e.Some? ==> FallsThrough(e.value, inLoop))
    case While(_, body) => FallsThrough(body, true)
    case DoWhile(body, _) => FallsThrough(body, true)
    case For(_, _, _, body) => FallsThrough(body, true)
    case BreakStmt => inLoop
    case ContinueStmt => inLoop
    case NextStmt => false
    case NextFileStmt => false
    case ExitStmt(_) => false
    case _ => true
  }

  predicate ActionFallsThrough(action: Option<Action>) {
    action.Some? ==> forall s :: s in action.value ==> FallsThrough(s, false)
  }

  ghost predicate Fell(r: Result, inLoop: bool) {
    r.Done? ==> !r.outcome.Left? && (!inLoop ==> r.outcome.Normal?)
  }

  lemma {:induction false} Falls(cx: Context, s: Stmt, inLoop: bool, w: World, fuel: nat)
    requires FallsThrough(s, inLoop)
    ensures Fell(Exec(cx, s, w, fuel), inLoop)
    decreases fuel, s, 1
  {
    hide Eval, EvalAll, PrintAll;
    match s
    case Block(ss) => AllFall(cx, ss, inLoop, w, fuel);
    case If(c, t, e) =>
      var r := Eval(cx, c, w);
      Falls(cx, t, inLoop, r.world, fuel);
      if e.Some? { Falls(cx, e.value, inLoop, r.world, fuel); }
    case While(c, body) =>
      var r := Eval(cx, c, w);
      if fuel > 0 && cx.ops.Truthy(r.value) {
        Falls(cx, body, true, r.world, fuel);
        TurnFalls(cx, s, Exec(cx, body, r.world, fuel), fuel - 1);
      }
    case DoWhile(body, _) =>
      if fuel > 0 {
        Falls(cx, body, true, w, fuel);
        TurnFalls(cx, s, Exec(cx, body, w, fuel), fuel - 1);
      }
    case For(init, _, _, _) => ForFalls(cx, s, EvalAll(cx, init, w), fuel);
    case _ =>
  }

  lemma {:induction false} AllFall(cx: Context, ss: seq<Stmt>, inLoop: bool, w: World, fuel: nat)
    requires forall t :: t in ss ==> FallsThrough(t, inLoop)
    ensures Fell(ExecAll(cx, ss, w, fuel), inLoop)
    decreases fuel, ss, 1
  {
    if ss != [] {
      var r := Exec(cx, ss[0], w, fuel);
      Falls(cx, ss[0], inLoop, w, fuel);
      if r.Done? && r.outcome.Normal? { AllFall(cx, ss[1..], inLoop, r.world, fuel); }
    }
  }

  lemma {:induction false} ForFalls(cx: Context, s: Stmt, w: World, fuel: nat)
    requires s.For? && FallsThrough(s, false)
    ensures Fell(ExecFor(cx, s, w, fuel), false)
    decreases fuel, s, 0
  {
    hide Eval, EvalAll;
    if fuel > 0 {
      var r := if s.test.None? then Evaluated(ONE, w) else Eval(cx, s.test.value, w);
      if s.test.None? || cx.ops.Truthy(r.value) {
        Falls(cx, s.body, true, r.world, fuel);
        TurnFalls(cx, s, Exec(cx, s.body, r.world, fuel), fuel - 1);
      }
    }
  }

  lemma {:induction false} TurnFalls(cx: Context, s: Stmt, body: Result, fuel: nat)
    requires (s.While? || s.DoWhile? || s.For?) && FallsThrough(s, false) && Fell(body, true)
    ensures Fell(AfterBody(cx, s, body, fuel), false)
    decreases fuel, s, 2
  {
    hide Eval, EvalAll;
    if body.Done? && !body.outcome.Broke? {
      if s.While? { Falls(cx, s, false, body.world, fuel); }
      else if s.For? { ForFalls(cx, s, EvalAll(cx, s.update, body.world), fuel); }
      else { Falls(cx, s, false, Eval(cx, s.condition, body.world).world, fuel); }
    }
  }

  // ----- Actions that leave a variable alone -----

  function AllTargets(es: seq<Expr>): set<string> {
    if es == [] then {} else Targets(es[0]) + AllTargets(es[1..])
  }

  /** The variables a statement may write. */
  function StmtTargets(s: Stmt): set<string>
    decreases s, 1
  {
    match s
    case AssignStmt(x, _, value) => {x} + Targets(value)
    case ExprStmt(e) => Targets(e)
    case Print(es) => AllTargets(es)
    case Block(ss) => StmtsTargets(ss)
    case If(c, t, e) => Targets(c) + StmtTargets(t) + (if e.Some? then StmtTargets(e.value) else {})
    case While(c, body) => Targets(c) + StmtTargets(body)
    case DoWhile(body, c) => StmtTargets(body) + Targets(c)
    case For(init, test, update, body) =>
      AllTargets(init) + (if test.Some? then Targets(test.value) else {}) + AllTargets(update) + StmtTargets(body)
    case ExitStmt(status) => if status.Some? then Targets(status.value) else {}
    case _ => {}
  }

  function StmtsTargets(ss: seq<Stmt>): set<string>
    decreases ss, 0
  {
    if ss == [] then {} else StmtTargets(ss[0]) + StmtsTargets(ss[1..])
  }

  function ActionTargets(action: Option<Action>): set<string> {
    if action.Some? then StmtsTargets(action.value) else {}
  }

  ghost predicate Same(cx: Context, x: string, w: World, w': World) {
    Read(cx, x, w') == Read(cx, x, w)
  }

  lemma {:induction false} AllSame(cx: Context, es: seq<Expr>, x: string, w: World)
    requires x !in AllTargets(es)
    ensures Same(cx, x, w, EvalAll(cx, es, w))
  {
    if es != [] {
      Untouched(cx, es[0], x, w);
      AllSame(cx, es[1..], x, Eval(cx, es[0], w).world);
    }
  }

  lemma {:induction false} PrintSame(cx: Context, es: seq<Expr>, index: nat, x: string, w: World)
    requires index <= |es| && x !in AllTargets(es[index..])
    ensures Same(cx, x, w, PrintAll(cx, es, index, w))
    decreases |es| - index
  {
    if index < |es| {
      var w1 := if index > 0 then Emit(PrintedSeparator, w) else w;
      var r := Eval(cx, es[index], w1);
      assert es[index..][1..] == es[index + 1..];
      Untouched(cx, es[index], x, w1);
      PrintSame(cx, es, index + 1, x, Emit(PrintedNumber(r.value), r.world));
    }
  }

  /** A statement that does not write a variable leaves it as it was, ended or not. */
  lemma {:induction false} StmtSame(cx: Context, s: Stmt, x: string, w: World, fuel: nat)
    requires x !in StmtTargets(s)
    ensures Same(cx, x, w, Exec(cx, s, w, fuel).world)
    decreases fuel, s, 1
  {
    hide Eval, EvalAll, PrintAll, Targets;
    match s
    case AssignStmt(_, _, value) => Untouched(cx, value, x, w);
    case ExprStmt(e) => Untouched(cx, e, x, w);
    case Print(es) =>
      assert es[0..] == es;
      PrintSame(cx, es, 0, x, w);
    case Block(ss) => StmtsSame(cx, ss, x, w, fuel);
    case If(c, t, e) =>
      var r := Eval(cx, c, w);
      Untouched(cx, c, x, w);
      StmtSame(cx, t, x, r.world, fuel);
      if e.Some? { StmtSame(cx, e.value, x, r.world, fuel); }
    case While(c, body) =>
      var r := Eval(cx, c, w);
      Untouched(cx, c, x, w);
      if fuel > 0 && cx.ops.Truthy(r.value) {
        StmtSame(cx, body, x, r.world, fuel);
        TurnSame(cx, s, x, w, Exec(cx, body, r.world, fuel), fuel - 1);
      }
    case DoWhile(body, _) =>
      if fuel > 0 {
        StmtSame(cx, body, x, w, fuel);
        TurnSame(cx, s, x, w, Exec(cx, body, w, fuel), fuel - 1);
      }
    case For(init, _, _, _) =>
      AllSame(cx, init, x, w);
      ForSame(cx, s, x, EvalAll(cx, init, w), fuel);
    case ExitStmt(status) => if status.Some? { Untouched(cx, status.value, x, w); }
    case _ =>
  }

  lemma {:induction false} StmtsSame(cx: Context, ss: seq<Stmt>, x: string, w: World, fuel: nat)
    requires x !in StmtsTargets(ss)
    ensures Same(cx, x, w, ExecAll(cx, ss, w, fuel).world)
    decreases fuel, ss, 1
  {
    if ss != [] {
      var r := Exec(cx, ss[0], w, fuel);
      StmtSame(cx, ss[0], x, w, fuel);
      if r.Done? && r.outcome.Normal? { StmtsSame(cx, ss[1..], x, r.world, fuel); }
    }
  }

  lemma {:induction false} ForSame(cx: Context, s: Stmt, x: string, w: World, fuel: nat)
    requires s.For? && x !in StmtTargets(s)
    ensures Same(cx, x, w, ExecFor(cx, s, w, fuel).world)
    decreases fuel, s, 0
  {
    hide Eval, EvalAll, Targets, AllTargets;
    if fuel > 0 {
      var r := if s.test.None? then Evaluated(ONE, w) else Eval(cx, s.test.value, w);
      if s.test.Some? { Untouched(cx, s.test.value, x, w); }
      if s.test.None? || cx.ops.Truthy(r.value) {
        StmtSame(cx, s.body, x, r.world, fuel);
        TurnSame(cx, s, x, w, Exec(cx, s.body, r.world, fuel), fuel - 1);
      }
    }
  }

  lemma {:induction false} TurnSame(cx: Context, s: Stmt, x: string, w: World, body: Result, fuel: nat)
    requires (s.While? || s.DoWhile? || s.For?) && x !in StmtTargets(s) && Same(cx, x, w, body.world)
    ensures Same(cx, x, w, AfterBody(cx, s, body, fuel).world)
    decreases fuel, s, 2
  {
    hide Eval, EvalAll, Targets, AllTargets;
    if body.Done? && !body.outcome.Left? && !body.outcome.Broke? {
      if s.While? { StmtSame(cx, s, x, body.world, fuel); }
      else if s.For? {
        AllSame(cx, s.update, x, body.world);
        ForSame(cx, s, x, EvalAll(cx, s.update, body.world), fuel);
      } else {
        Untouched(cx, s.condition, x, body.world);
        StmtSame(cx, s, x, Eval(cx, s.condition, body.world).world, fuel);
      }
    }
  }

  // ----- The flag -----

  predicate Up(cx: Context, state: string, w: World) {
    cx.ops.Truthy(Read(cx, state, w))
  }

  /** The record is in the range: its flag is up, or its left pattern holds. */
  predicate Starts(cx: Context, left: Expr, state: string, w: World) {
    Up(cx, state, w) || cx.ops.Truthy(Eval(cx, left, NoteRead(state, w)).value)
  }

  /** Where the action starts. */
  function Started(cx: Context, left: Expr, state: string, w: World): World {
    if Up(cx, state, w) then NoteRead(state, w) else Eval(cx, left, NoteRead(state, w)).world
  }

  /** A record of the range leaves the flag up exactly when its action falls through and the right
      pattern, read with the variables as the action left them, does not hold; an action that leaves
      the record leaves the flag alone. */
  lemma RangeFlag(cx: Context, left: Expr, right: Expr, state: string, action: Option<Action>, w: World, fuel: nat)
    requires cx.ops.Lawful() && Starts(cx, left, state, w)
      && ExecAction(cx, action, Started(cx, left, state, w), fuel).Done?
    ensures
      var acted := ExecAction(cx, action, Started(cx, left, state, w), fuel);
      var r := ExecItem(cx, RecordItem(Range(left, right, state), action), w, fuel);
      && r.Done? && r.outcome == acted.outcome
      && (acted.outcome.Normal? ==> (Up(cx, state, r.world) <==> !cx.ops.Truthy(Eval(cx, right, acted.world).value)))
      && (!acted.outcome.Normal? && state !in Targets(left) + ActionTargets(action) ==>
          (Up(cx, state, r.world) <==> Up(cx, state, w)))
  {
    hide Eval, ExecAll, Targets, StmtsTargets;
    var w1 := Started(cx, left, state, w);
    if state !in Targets(left) + ActionTargets(action) {
      Untouched(cx, left, state, NoteRead(state, w));
      if action.Some? { StmtsSame(cx, action.value, state, w1, fuel); }
    }
  }

  /** So a record whose left pattern holds opens the range just when its action falls through and
      the right pattern does not hold after it. */
  lemma RangeOpens(cx: Context, left: Expr, right: Expr, state: string, action: Option<Action>, w: World, fuel: nat)
    requires cx.ops.Lawful() && !Up(cx, state, w) && Starts(cx, left, state, w)
      && state !in Targets(left) + ActionTargets(action)
    requires ExecItem(cx, RecordItem(Range(left, right, state), action), w, fuel).Done?
    ensures
      var acted := ExecAction(cx, action, Started(cx, left, state, w), fuel);
      var r := ExecItem(cx, RecordItem(Range(left, right, state), action), w, fuel);
      && acted.Done?
      && (Up(cx, state, r.world) <==> acted.outcome.Normal? && !cx.ops.Truthy(Eval(cx, right, acted.world).value))
      && (ActionFallsThrough(action) ==> acted.outcome.Normal?)
  {
    hide Eval, ExecAll, Targets, StmtsTargets, FallsThrough;
    var w1 := Started(cx, left, state, w);
    RangeFlag(cx, left, right, state, action, w, fuel);
    if action.Some? && ActionFallsThrough(action) { AllFall(cx, action.value, false, w1, fuel); }
  }

  /** An action that falls through decides where its range ends: the record is the last of the range
      if and only if the right pattern holds with the variables as the action leaves them, whatever it
      was before. */
  lemma ActionEndsRange(cx: Context, left: Expr, right: Expr, state: string,
                        action: Option<Action>, w: World, fuel: nat)
    requires cx.ops.Lawful() && Starts(cx, left, state, w) && ActionFallsThrough(action)
    requires ExecAction(cx, action, Started(cx, left, state, w), fuel).Done?
    ensures
      var acted := ExecAction(cx, action, Started(cx, left, state, w), fuel);
      var r := ExecItem(cx, RecordItem(Range(left, right, state), action), w, fuel);
      && r.Done? && r.outcome.Normal?
      && (!Up(cx, state, r.world) <==> cx.ops.Truthy(Eval(cx, right, acted.world).value))
  {
    hide Eval, ExecAll, Targets, StmtsTargets, FallsThrough;
    RangeFlag(cx, left, right, state, action, w, fuel);
    if action.Some? { AllFall(cx, action.value, false, Started(cx, left, state, w), fuel); }
  }
}

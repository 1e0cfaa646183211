/** Where a variable is kept cannot be observed: with local names in cells that start at zero in
    every call, a program prints, exits and leaves the state-backed variables exactly as it
    does with every name in the persistent state, over any records. */
module Storage {
  import opened Options
  import opened Syntax
  import opened Meaning
  import opened Residency
  import opened ResidencySound

  // ----- The names a phase can touch -----

  /** The variables an expression reads or writes. */
  function Names(e: Expr): set<string> {
    match e
    case Number(_) => {}
    case Name(x) => {x}
    case Builtin(_) => {}
    case Assign(x, _, right) => {x} + Names(right)
    case Sign(_, operand) => Names(operand)
    case Increment(x, _, _) => {x}
    case Arith(_, l, r) => Names(l) + Names(r)
    case Compare(_, l, r) => Names(l) + Names(r)
    case And(l, r) => Names(l) + Names(r)
    case Or(l, r) => Names(l) + Names(r)
    case Conditional(c, t, f) => Names(c) + Names(t) + Names(f)
  }

  function AllNames(es: seq<Expr>): set<string> {
    if es == [] then {} else Names(es[0]) + AllNames(es[1..])
  }

  function StmtNames(s: Stmt): set<string>
    decreases s, 1
  {
    match s
    case AssignStmt(x, _, value) => {x} + Names(value)
    case ExprStmt(e) => Names(e)
    case Print(es) => AllNames(es)
    case Block(ss) => StmtsNames(ss)
    case If(c, t, e) => Names(c) + StmtNames(t) + (if e.Some? then StmtNames(e.value) else {})
    case While(c, body) => Names(c) + StmtNames(body)
    case DoWhile(body, c) => Names(c) + StmtNames(body)
    case For(init, test, update, body) =>
      AllNames(init) + (if test.Some? then Names(test.value) else {}) + AllNames(update) + StmtNames(body)
    case ExitStmt(status) => if status.Some? then Names(status.value) else {}
    case BreakStmt => {}
    case ContinueStmt => {}
    case NextStmt => {}
    case NextFileStmt => {}
  }

  function StmtsNames(ss: seq<Stmt>): set<string>
    decreases ss, 0
  {
    if ss == [] then {} else StmtNames(ss[0]) + StmtsNames(ss[1..])
  }

  function PatternNames(p: Pattern): set<string> {
    match p
    case Always => {}
    case When(test) => Names(test)
    case Range(left, right, state) => Names(left) + Names(right) + {state}
  }

  function ItemNames(item: RecordItem): set<string> {
    PatternNames(item.pattern) + (if item.action.Some? then StmtsNames(item.action.value) else {})
  }

  function ActionsNames(actions: seq<Action>): set<string> {
    if actions == [] then {} else StmtsNames(actions[0]) + ActionsNames(actions[1..])
  }

  function ItemsNames(items: seq<RecordItem>): set<string> {
    if items == [] then {} else ItemNames(items[0]) + ItemsNames(items[1..])
  }

  function PhaseNames(phase: Phase): set<string> {
    match phase
    case Actions(actions) => ActionsNames(actions)
    case Items(items) => ItemsNames(items)
  }

  // ----- The analysis sees every name -----

  lemma {:induction false} Seen(tracked: set<string>, e: Expr, definite: set<string>)
    ensures AnalyzeExpr(tracked, e, definite).encountered == Names(e) * tracked
    ensures AnalyzeExpr(tracked, e, definite).assignedNames <= AnalyzeExpr(tracked, e, definite).encountered
  {
    match e
    case Assign(_, _, right) => Seen(tracked, right, definite);
    case Sign(_, operand) => Seen(tracked, operand, definite);
    case Arith(_, l, r) =>
      Seen(tracked, l, definite);
      Seen(tracked, r, AnalyzeExpr(tracked, l, definite).assignedAfter);
    case Compare(_, l, r) =>
      Seen(tracked, l, definite);
      Seen(tracked, r, AnalyzeExpr(tracked, l, definite).assignedAfter);
    case And(l, r) => Seen(tracked, l, definite); Seen(tracked, r, AnalyzeExpr(tracked, l, definite).assignedAfter);
    case Or(l, r) => Seen(tracked, l, definite); Seen(tracked, r, AnalyzeExpr(tracked, l, definite).assignedAfter);
    case Conditional(c, t, f) =>
      var test := AnalyzeExpr(tracked, c, definite);
      Seen(tracked, c, definite);
      Seen(tracked, t, test.assignedAfter);
      Seen(tracked, f, test.assignedAfter);
    case _ =>
  }

  lemma {:induction false} AllSeen(tracked: set<string>, es: seq<Expr>, definite: set<string>)
    ensures AnalyzeAll(tracked, es, definite).encountered == AllNames(es) * tracked
    ensures AnalyzeAll(tracked, es, definite).assignedNames <= AnalyzeAll(tracked, es, definite).encountered
  {
    if es != [] {
      Seen(tracked, es[0], definite);
      AllSeen(tracked, es[1..], AnalyzeExpr(tracked, es[0], definite).assignedAfter);
    }
  }

  lemma {:induction false} StmtSeen(tracked: set<string>, s: Stmt, mayContinue: bool, definite: set<string>)
    requires OrderlyStmt(s, mayContinue)
    ensures AnalyzeStmt(tracked, s, definite).encountered == StmtNames(s) * tracked
    ensures AnalyzeStmt(tracked, s, definite).assignedNames <= AnalyzeStmt(tracked, s, definite).encountered
    decreases s, 1
  {
    hide AnalyzeExpr, AnalyzeAll, Names, AllNames;
    match s
    case AssignStmt(_, _, value) => Seen(tracked, value, definite);
    case ExprStmt(e) => Seen(tracked, e, definite);
    case Print(es) => AllSeen(tracked, es, definite);
    case Block(ss) => StmtsSeen(tracked, ss, mayContinue, definite);
    case If(c, t, e) =>
      var test := AnalyzeExpr(tracked, c, definite);
      Seen(tracked, c, definite);
      StmtSeen(tracked, t, mayContinue, test.assignedAfter);
      if e.Some? { StmtSeen(tracked, e.value, mayContinue, test.assignedAfter); }
    case While(c, body) =>
      Seen(tracked, c, definite);
      StmtSeen(tracked, body, true, AnalyzeExpr(tracked, c, definite).assignedAfter);
    case DoWhile(body, c) =>
      StmtSeen(tracked, body, false, definite);
      Seen(tracked, c, AnalyzeStmt(tracked, body, definite).assignedAfter);
    case For(init, test, update, body) =>
      var start := AnalyzeAll(tracked, init, definite).assignedAfter;
      var condition := AnalyzeTest(tracked, test, start).assignedAfter;
      AllSeen(tracked, init, definite);
      if test.Some? { Seen(tracked, test.value, start); }
      StmtSeen(tracked, body, false, condition);
      AllSeen(tracked, update, AnalyzeStmt(tracked, body, condition).assignedAfter);
    case _ =>
  }

  lemma {:induction false} StmtsSeen(tracked: set<string>, ss: seq<Stmt>, mayContinue: bool, definite: set<string>)
    requires forall t :: t in ss ==> OrderlyStmt(t, mayContinue)
    ensures AnalyzeStmts(tracked, ss, definite).encountered == StmtsNames(ss) * tracked
    ensures AnalyzeStmts(tracked, ss, definite).assignedNames <= AnalyzeStmts(tracked, ss, definite).encountered
    decreases ss, 0
  {
    hide AnalyzeStmt, StmtNames, OrderlyStmt;
    if ss != [] {
      StmtSeen(tracked, ss[0], mayContinue, definite);
      StmtsSeen(tracked, ss[1..], mayContinue, AnalyzeStmt(tracked, ss[0], definite).assignedAfter);
    }
  }

  lemma ItemSeen(tracked: set<string>, item: RecordItem, definite: set<string>)
    requires OrderlyItem(item) && NoRangeName(tracked)
    ensures AnalyzeItem(tracked, item, definite).encountered == ItemNames(item) * tracked
    ensures AnalyzeItem(tracked, item, definite).assignedNames <= AnalyzeItem(tracked, item, definite).encountered
  {
    hide AnalyzeStmts, StmtsNames, AnalyzeExpr, Names, OrderlyStmt;
    match item.pattern {
      case Always =>
      case When(test) => Seen(tracked, test, definite);
      case Range(left, right, _) => Seen(tracked, left, definite); Seen(tracked, right, definite);
    }
    if item.action.Some? {
      StmtsSeen(tracked, item.action.value, true, AnalyzePattern(tracked, item.pattern, definite).assignedAfter);
    }
  }

  lemma {:induction false} ActionsSeen(tracked: set<string>, actions: seq<Action>, definite: set<string>)
    requires forall a :: a in actions ==> OrderlyAction(a)
    ensures AnalyzeActions(tracked, actions, definite).encountered == ActionsNames(actions) * tracked
    ensures AnalyzeActions(tracked, actions, definite).assignedNames <= AnalyzeActions(tracked,
        actions, definite).encountered
  {
    hide AnalyzeStmts, StmtsNames;
    if actions != [] {
      assert OrderlyAction(actions[0]);
      StmtsSeen(tracked, actions[0], true, definite);
      ActionsSeen(tracked, actions[1..], AnalyzeStmts(tracked, actions[0], definite).assignedAfter);
    }
  }

  lemma {:induction false} ItemsSeen(tracked: set<string>, items: seq<RecordItem>, definite: set<string>)
    requires (forall i :: i in items ==> OrderlyItem(i)) && NoRangeName(tracked)
    ensures AnalyzeItems(tracked, items, definite).encountered == ItemsNames(items) * tracked
    ensures AnalyzeItems(tracked, items, definite).assignedNames <= AnalyzeItems(tracked, items, definite).encountered
  {
    hide AnalyzeItem, ItemNames, OrderlyItem;
    if items != [] {
      ItemSeen(tracked, items[0], definite);
      ItemsSeen(tracked, items[1..], AnalyzeItem(tracked, items[0], definite).assignedAfter);
    }
  }

  /** The names the analysis encounters in a phase are exactly the tracked ones it can touch. */
  lemma PhaseSeen(tracked: set<string>, phase: Phase)
    requires OrderlyPhase(phase) && NoRangeName(tracked)
    ensures AnalyzePhase(tracked, phase).encountered == PhaseNames(phase) * tracked
    ensures AnalyzePhase(tracked, phase).assignedNames <= AnalyzePhase(tracked, phase).encountered
  {
    match phase
    case Actions(actions) => ActionsSeen(tracked, actions, {});
    case Items(items) => ItemsSeen(tracked, items, {});
  }

  // ----- Two ways of keeping variables -----

  /** The same context, with the names `locals` in the frame in one and in the state in the other. */
  datatype Storages = Storages(split: Context, whole: Context, apart: set<string>) {
    ghost predicate Valid() {
      whole == split.(locals := {}) && split.locals <= apart
    }

    /** What the phase may touch without a difference: names kept alike, and local ones. */
    ghost predicate Touches(names: set<string>) {
      names * apart <= split.locals
    }
  }

  /** Both worlds look the same, except that names apart may differ in the state, and a local
      name already written has its value in the frame of the one and the state of the other. */
  ghost predicate Alike(k: Storages, w: World, u: World) {
    && w.output == u.output && w.exit == u.exit && w.written == u.written && w.early == u.early
    && (forall x :: x !in k.apart ==> Lookup(w.persistent, x) == Lookup(u.persistent, x))
    && (forall x :: x in k.split.locals && x in w.written ==> Lookup(w.frame, x) == Lookup(u.persistent, x))
  }

  ghost predicate Unread(k: Storages, w: World) {
    w.early * k.split.locals == {}
  }

  lemma AlikeRead(k: Storages, x: string, w: World, u: World)
    requires k.Valid() && Alike(k, w, u) && k.Touches({x}) && Unread(k, NoteRead(x, u))
    ensures Read(k.split, x, w) == Read(k.whole, x, u) && Alike(k, NoteRead(x, w), NoteRead(x, u))
  {
    if x in k.split.locals { assert x in NoteRead(x, u).early || x in u.written; }
  }

  lemma AlikeWrite(k: Storages, x: string, v: Double, w: World, u: World)
    requires k.Valid() && Alike(k, w, u) && k.Touches({x})
    ensures Alike(k, Write(k.split, x, v, w), Write(k.whole, x, v, u))
  {
  }

  // ----- What is read early stays read early -----

  lemma {:induction false} EarlyStays(cx: Context, e: Expr, w: World)
    ensures w.early <= Eval(cx, e, w).world.early
    decreases e, 0
  {
    match e
    case Number(_) =>
    case Name(_) =>
    case Builtin(_) =>
    case Assign(x, aop, right) => EarlyStays(cx, right, if aop.Plain? then w else NoteRead(x, w));
    case Sign(_, operand) => EarlyStays(cx, operand, w);
    case Increment(_, _, _) =>
    case Arith(_, l, r) => EarlyStays(cx, l, w); EarlyStays(cx, r, Eval(cx, l, w).world);
    case Compare(_, l, r) =>
      EarlyStaysOperand(cx, e, l, w);
      EarlyStaysOperand(cx, e, r, EvalOperand(cx, e, l, w).world);
    case And(l, r) => EarlyStays(cx, l, w); EarlyStays(cx, r, Eval(cx, l, w).world);
    case Or(l, r) => EarlyStays(cx, l, w); EarlyStays(cx, r, Eval(cx, l, w).world);
    case Conditional(c, t, f) =>
      EarlyStays(cx, c, w);
      EarlyStays(cx, t, Eval(cx, c, w).world);
      EarlyStays(cx, f, Eval(cx, c, w).world);
  }

  lemma {:induction false} EarlyStaysOperand(cx: Context, e: Expr, operand: Expr, w: World)
    requires e.Compare? && (operand == e.left || operand == e.right)
    ensures w.early <= EvalOperand(cx, e, operand, w).world.early
    decreases operand, 1
  {
    EarlyStays(cx, operand, w);
    EarlyStays(cx, operand, Eval(cx, operand, w).world);
  }

  // ----- Expressions -----

  ghost predicate AlikeValues(k: Storages, r: Evaluated, s: Evaluated) {
    r.value == s.value && Alike(k, r.world, s.world)
  }

  lemma {:induction false} AlikeEval(k: Storages, e: Expr, w: World, u: World)
    requires k.Valid() && Alike(k, w, u) && k.Touches(Names(e)) && Unread(k, Eval(k.whole, e, u).world)
    ensures AlikeValues(k, Eval(k.split, e, w), Eval(k.whole, e, u))
    decreases e, 1
  {
    hide Alike, Read, NoteRead, Write, Unread;
    match e
    case Number(_) =>
    case Name(x) => AlikeRead(k, x, w, u);
    case Builtin(_) =>
    case Assign(x, aop, right) => AlikeAssign(k, e, w, u);
    case Sign(_, operand) => AlikeEval(k, operand, w, u);
    case Increment(x, _, _) => AlikeIncrement(k, e, w, u);
    case Arith(_, l, r) =>
      var u1 := Eval(k.whole, l, u);
      EarlyStays(k.whole, r, u1.world);
      StillUnread(k, u1.world, Eval(k.whole, r, u1.world).world);
      AlikeEval(k, l, w, u);
      AlikeEval(k, r, Eval(k.split, l, w).world, u1.world);
    case Compare(_, l, r) =>
      var w1, u1 := EvalOperand(k.split, e, l, w), EvalOperand(k.whole, e, l, u);
      EarlyStaysOperand(k.whole, e, r, u1.world);
      StillUnread(k, u1.world, EvalOperand(k.whole, e, r, u1.world).world);
      AlikeOperand(k, e, l, w, u);
      AlikeOperand(k, e, r, w1.world, u1.world);
    case And(l, r) =>
      var u1 := Eval(k.whole, l, u);
      EarlyStays(k.whole, r, u1.world);
      StillUnread(k, u1.world, Eval(k.whole, r, u1.world).world);
      AlikeEval(k, l, w, u);
      if k.whole.ops.Truthy(u1.value) { AlikeEval(k, r, Eval(k.split, l, w).world, u1.world); }
    case Or(l, r) =>
      var u1 := Eval(k.whole, l, u);
      EarlyStays(k.whole, r, u1.world);
      StillUnread(k, u1.world, Eval(k.whole, r, u1.world).world);
      AlikeEval(k, l, w, u);
      if !k.whole.ops.Truthy(u1.value) { AlikeEval(k, r, Eval(k.split, l, w).world, u1.world); }
    case Conditional(c, t, f) =>
      var u1 := Eval(k.whole, c, u);
      var branch := if k.whole.ops.Truthy(u1.value) then t else f;
      EarlyStays(k.whole, branch, u1.world);
      StillUnread(k, u1.world, Eval(k.whole, branch, u1.world).world);
      AlikeEval(k, c, w, u);
      AlikeEval(k, branch, Eval(k.split, c, w).world, u1.world);
  }

  lemma StillUnread(k: Storages, u: World, later: World)
    ensures Unread(k, later) && u.early <= later.early ==> Unread(k, u)
  {
  }

  lemma {:induction false} AlikeOperand(k: Storages, e: Expr, operand: Expr, w: World, u: World)
    requires e.Compare? && (operand == e.left || operand == e.right)
    requires k.Valid() && Alike(k, w, u) && k.Touches(Names(operand))
      && Unread(k, EvalOperand(k.whole, e, operand, u).world)
    ensures AlikeValues(k, EvalOperand(k.split, e, operand, w), EvalOperand(k.whole, e, operand, u))
    decreases operand, 2
  {
    hide Alike, Unread, Names;
    var u1 := Eval(k.whole, operand, u).world;
    EarlyStays(k.whole, operand, u1);
    StillUnread(k, u1, Eval(k.whole, operand, u1).world);
    AlikeEval(k, operand, w, u);
    if k.whole.reading.AsEmitted? && !ComparesNumbers(e) { AlikeEval(k, operand, Eval(k.split, operand, w).world, u1); }
  }

  lemma {:induction false} AlikeAssign(k: Storages, e: Expr, w: World, u: World)
    requires e.Assign? && k.Valid() && Alike(k, w, u) && k.Touches(Names(e)) && Unread(k, Eval(k.whole, e, u).world)
    ensures AlikeValues(k, Eval(k.split, e, w), Eval(k.whole, e, u))
    decreases e, 0
  {
    hide Alike, Unread, Read, NoteRead;
    var x, v := e.target, Eval(k.whole, e, u).value;
    var w1, u1 := if e.aop.Plain? then w else NoteRead(x, w), if e.aop.Plain? then u else NoteRead(x, u);
    EarlyStays(k.whole, e.right, u1);
    StillUnread(k, u1, Eval(k.whole, e.right, u1).world);
    StillUnread(k, Eval(k.whole, e.right, u1).world, Eval(k.whole, e, u).world);
    if e.aop.Compound? { AlikeRead(k, x, w, u); }
    AlikeEval(k, e.right, w1, u1);
    AlikeWrite(k, x, v, Eval(k.split, e.right, w1).world, Eval(k.whole, e.right, u1).world);
  }

  lemma AlikeIncrement(k: Storages, e: Expr, w: World, u: World)
    requires e.Increment? && k.Valid() && Alike(k, w, u) && k.Touches(Names(e)) && Unread(k, Eval(k.whole, e, u).world)
    ensures AlikeValues(k, Eval(k.split, e, w), Eval(k.whole, e, u))
  {
    hide Alike, Read, NoteRead;
    StillUnread(k, NoteRead(e.name, u), Eval(k.whole, e, u).world);
    AlikeRead(k, e.name, w, u);
    var before := Read(k.whole, e.name, u);
    AlikeWrite(k, e.name, if e.up then k.whole.ops.add(before, ONE)
               else k.whole.ops.sub(before, ONE), NoteRead(e.name, w), NoteRead(e.name, u));
  }

  // ----- Statements -----

  /** The runs to come start alike, and read no local name before it is written. */
  ghost predicate Ready(k: Storages, tracked: set<string>, r: Analysis, names: set<string>,
                        definite: set<string>, w: World, u: World) {
    && k.Valid() && k.split.locals <= tracked && definite <= u.written && Alike(k, w, u) && Unread(k, u)
    && k.Touches(names) && r.readBefore * k.split.locals == {}
  }

  lemma StaysUnread(k: Storages, tracked: set<string>, r: Analysis, u: World, later: World)
    requires Watched(tracked, r, u, later) && Unread(k, u) && k.split.locals <= tracked
      && r.readBefore * k.split.locals == {}
    ensures Unread(k, later)
  {
  }

  /** Readiness for a part further on, from readiness for the whole. */
  lemma PartReady(k: Storages, tracked: set<string>, r: Analysis, names: set<string>,
                  definite: set<string>, w: World, u: World,
                  part: Analysis, partNames: set<string>, now: set<string>, w1: World, u1: World)
    requires Ready(k, tracked, r, names, definite, w, u) && part.readBefore <= r.readBefore && partNames <= names
    requires Alike(k, w1, u1) && Unread(k, u1) && now <= u1.written
    ensures Ready(k, tracked, part, partNames, now, w1, u1)
  {
  }

  lemma ReadyNow(k: Storages, tracked: set<string>, r: Analysis, names: set<string>,
                 definite: set<string>, w: World, u: World)
    requires Ready(k, tracked, r, names, definite, w, u)
    ensures k.Valid() && Alike(k, w, u) && Unread(k, u) && definite <= u.written
  {
  }

  lemma AlikeExpr(k: Storages, tracked: set<string>, e: Expr, definite: set<string>, w: World, u: World)
    requires Orderly(e) && Ready(k, tracked, AnalyzeExpr(tracked, e, definite), Names(e), definite, w, u)
    ensures
      var r, s := Eval(k.split, e, w), Eval(k.whole, e, u);
      AlikeValues(k, r, s) && Unread(k, s.world) && AnalyzeExpr(tracked, e, definite).assignedAfter <= s.world.written
      && u.written <= s.world.written
  {
    hide Eval, AnalyzeExpr, Alike;
    SoundExpr(k.whole, tracked, e, definite, u);
    StaysUnread(k, tracked, AnalyzeExpr(tracked, e, definite), u, Eval(k.whole, e, u).world);
    AlikeEval(k, e, w, u);
  }

  lemma {:induction false} AlikeAll(k: Storages, tracked: set<string>, es: seq<Expr>,
                                    definite: set<string>, w: World, u: World)
    requires AllOrderly(es) && Ready(k, tracked, AnalyzeAll(tracked, es, definite), AllNames(es), definite, w, u)
    ensures
      var w1, u1 := EvalAll(k.split, es, w), EvalAll(k.whole, es, u);
      Alike(k, w1, u1) && Unread(k, u1) && AnalyzeAll(tracked, es, definite).assignedAfter <= u1.written
        && u.written <= u1.written
    decreases es
  {
    if es != [] {
      hide Eval, AnalyzeExpr, Alike, Unread, Names, Orderly;
      AlikeExpr(k, tracked, es[0], definite, w, u);
      AlikeAll(k, tracked, es[1..], AnalyzeExpr(tracked, es[0], definite).assignedAfter, Eval(k.split, es[0], w).world,
               Eval(k.whole, es[0], u).world);
    }
  }

  lemma AlikeEmit(k: Storages, event: Event, w: World, u: World)
    requires Alike(k, w, u)
    ensures Alike(k, Emit(event, w), Emit(event, u))
  {
  }

  lemma {:induction false} AlikePrint(k: Storages, tracked: set<string>, es: seq<Expr>, index: nat,
                                      definite: set<string>, w: World, u: World)
    requires AllOrderly(es) && index <= |es|
    requires Ready(k, tracked, AnalyzeAll(tracked, es[index..], definite), AllNames(es[index..]), definite, w, u)
    ensures Alike(k, PrintAll(k.split, es, index, w), PrintAll(k.whole, es, index, u))
    decreases |es| - index
  {
    hide Eval, Alike, Names, Orderly, AnalyzeExpr;
    if index == |es| {
      AlikeEmit(k, PrintedEnd, w, u);
    } else {
      assert es[index..][1..] == es[index + 1..];
      var w1, u1 := if index > 0 then Emit(PrintedSeparator, w) else w, if index > 0 then Emit(PrintedSeparator, u)
          else u;
      AlikeEmit(k, PrintedSeparator, w, u);
      var r, q := Eval(k.split, es[index], w1), Eval(k.whole, es[index], u1);
      AlikeExpr(k, tracked, es[index], definite, w1, u1);
      AlikeEmit(k, PrintedNumber(q.value), r.world, q.world);
      AlikePrint(k, tracked, es, index + 1, AnalyzeExpr(tracked, es[index], definite).assignedAfter,
                 Emit(PrintedNumber(r.value), r.world), Emit(PrintedNumber(q.value), q.world));
    }
  }

  ghost predicate AlikeResults(k: Storages, r: Result, s: Result) {
    && (if s.OutOfFuel? then r.OutOfFuel? else r.Done? && r.outcome == s.outcome)
    && Alike(k, r.world, s.world) && Unread(k, s.world)
  }

  lemma {:induction false} AlikeStmt(k: Storages, tracked: set<string>, s: Stmt, mayContinue: bool,
                                     definite: set<string>, w: World, u: World, fuel: nat)
    requires OrderlyStmt(s, mayContinue)
      && Ready(k, tracked, AnalyzeStmt(tracked, s, definite), StmtNames(s), definite, w, u)
    ensures AlikeResults(k, Exec(k.split, s, w, fuel), Exec(k.whole, s, u, fuel))
    decreases fuel, s, 2
  {
    hide Eval, AnalyzeExpr, Orderly, EvalAll, AnalyzeAll, AllOrderly, Alike, Names, AllNames;
    match s
    case AssignStmt(x, aop, value) => AlikeAssignment(k, tracked, s, mayContinue, definite, w, u, fuel);
    case ExprStmt(e) => AlikeExpr(k, tracked, e, definite, w, u);
    case Print(es) =>
      assert es[0..] == es;
      AlikeEmit(k, PrintedRecord, w, u);
      AlikePrint(k, tracked, es, 0, definite, w, u);
      SoundPrint(k.whole, tracked, es, 0, definite, u);
      StaysUnread(k, tracked, AnalyzeAll(tracked, es, definite), u, PrintAll(k.whole, es, 0, u));
    case Block(ss) => AlikeStmts(k, tracked, ss, mayContinue, definite, w, u, fuel);
    case If(c, t, e) =>
      var test, r, q := AnalyzeExpr(tracked, c, definite), Eval(k.split, c, w), Eval(k.whole, c, u);
      AlikeExpr(k, tracked, c, definite, w, u);
      if k.whole.ops.Truthy(q.value) {
        AlikeStmt(k, tracked, t, mayContinue, test.assignedAfter, r.world, q.world, fuel);
      } else if e.Some? {
        AlikeStmt(k, tracked, e.value, mayContinue, test.assignedAfter, r.world, q.world, fuel);
      }
    case While(_, _) => AlikeWhile(k, tracked, s, definite, w, u, fuel);
    case DoWhile(_, _) => AlikeDo(k, tracked, s, definite, w, u, fuel);
    case For(init, _, _, _) =>
      AlikeAll(k, tracked, init, definite, w, u);
      AlikeFor(k, tracked, s, AnalyzeAll(tracked, init, definite).assignedAfter, EvalAll(k.split, init, w),
               EvalAll(k.whole, init, u), fuel);
    case NextFileStmt => AlikeEmit(k, SkippedFile, w, u);
    case ExitStmt(_) => AlikeExit(k, w, u);
    case BreakStmt =>
    case ContinueStmt =>
    case NextStmt =>
  }

  lemma AlikeExit(k: Storages, w: World, u: World)
    requires Alike(k, w, u) && Unread(k, u)
    ensures Alike(k, w.(exit := Some(0)), u.(exit := Some(0))) && Unread(k, u.(exit := Some(0)))
  {
  }

  lemma AlikeAssignment(k: Storages, tracked: set<string>, s: Stmt, mayContinue: bool, definite: set<string>,
                        w: World, u: World, fuel: nat)
    requires s.AssignStmt? && OrderlyStmt(s, mayContinue)
      && Ready(k, tracked, AnalyzeStmt(tracked, s, definite), StmtNames(s), definite, w, u)
    ensures AlikeResults(k, Exec(k.split, s, w, fuel), Exec(k.whole, s, u, fuel))
  {
    hide Eval, AnalyzeExpr, Orderly, Alike, Read, NoteRead, Names;
    var x := s.target;
    var r, q := Eval(k.split, s.value, w), Eval(k.whole, s.value, u);
    AlikeExpr(k, tracked, s.value, definite, w, u);
    SoundStmt(k.whole, tracked, s, mayContinue, definite, u, fuel);
    StaysUnread(k, tracked, AnalyzeStmt(tracked, s, definite), u, Exec(k.whole, s, u, fuel).world);
    var before := Read(k.whole, x, q.world);
    if s.aop.Compound? {
      StillUnread(k, NoteRead(x, q.world), Exec(k.whole, s, u, fuel).world);
      AlikeRead(k, x, r.world, q.world);
      AlikeWrite(k, x, k.whole.ops.Arith(s.aop.op, before, q.value), NoteRead(x, r.world), NoteRead(x, q.world));
    } else {
      AlikeWrite(k, x, q.value, r.world, q.world);
    }
  }

  lemma {:induction false} AlikeStmts(k: Storages, tracked: set<string>, ss: seq<Stmt>, mayContinue: bool,
                                      definite: set<string>, w: World, u: World, fuel: nat)
    requires forall t :: t in ss ==> OrderlyStmt(t, mayContinue)
    requires Ready(k, tracked, AnalyzeStmts(tracked, ss, definite), StmtsNames(ss), definite, w, u)
    ensures AlikeResults(k, ExecAll(k.split, ss, w, fuel), ExecAll(k.whole, ss, u, fuel))
    decreases fuel, ss, 2
  {
    if ss != [] {
      hide Exec, AnalyzeStmt, OrderlyStmt, Alike, Unread, StmtNames;
      var first, r, q := AnalyzeStmt(tracked, ss[0], definite), Exec(k.split, ss[0], w, fuel),
          Exec(k.whole, ss[0], u, fuel);
      AlikeStmt(k, tracked, ss[0], mayContinue, definite, w, u, fuel);
      if q.Done? && q.outcome.Normal? {
        SoundStmt(k.whole, tracked, ss[0], mayContinue, definite, u, fuel);
        AlikeStmts(k, tracked, ss[1..], mayContinue, first.assignedAfter, r.world, q.world, fuel);
      }
    }
  }

  lemma {:induction false} AlikeWhile(k: Storages, tracked: set<string>, s: Stmt, definite: set<string>,
                                      w: World, u: World, fuel: nat)
    requires s.While? && OrderlyStmt(s, true)
      && Ready(k, tracked, AnalyzeStmt(tracked, s, definite), StmtNames(s), definite, w, u)
    ensures AlikeResults(k, Exec(k.split, s, w, fuel), Exec(k.whole, s, u, fuel))
    decreases fuel, s, 1
  {
    hide Eval, AnalyzeExpr, Orderly, Alike, Unread, Names;
    var test, r, q := AnalyzeExpr(tracked, s.condition, definite), Eval(k.split, s.condition, w),
        Eval(k.whole, s.condition, u);
    AlikeExpr(k, tracked, s.condition, definite, w, u);
    if fuel > 0 && k.whole.ops.Truthy(q.value) {
      var r1, q1 := Exec(k.split, s.body, r.world, fuel), Exec(k.whole, s.body, q.world, fuel);
      AlikeStmt(k, tracked, s.body, true, test.assignedAfter, r.world, q.world, fuel);
      SoundStmt(k.whole, tracked, s.body, true, test.assignedAfter, q.world, fuel);
      if q1.Done? && (q1.outcome.Normal? || q1.outcome.Continued?) {
        AlikeWhile(k, tracked, s, definite, r1.world, q1.world, fuel - 1);
      }
    }
  }

  lemma {:induction false} AlikeDo(k: Storages, tracked: set<string>, s: Stmt, definite: set<string>,
                                   w: World, u: World, fuel: nat)
    requires s.DoWhile? && OrderlyStmt(s, true)
      && Ready(k, tracked, AnalyzeStmt(tracked, s, definite), StmtNames(s), definite, w, u)
    ensures AlikeResults(k, Exec(k.split, s, w, fuel), Exec(k.whole, s, u, fuel))
    decreases fuel, s, 1
  {
    hide Eval, AnalyzeExpr, Orderly, Alike, Unread, Names, Ready;
    var all, names := AnalyzeStmt(tracked, s, definite), StmtNames(s);
    ReadyNow(k, tracked, all, names, definite, w, u);
    if fuel > 0 {
      var first := AnalyzeStmt(tracked, s.body, definite);
      var r1, q1 := Exec(k.split, s.body, w, fuel), Exec(k.whole, s.body, u, fuel);
      PartReady(k, tracked, all, names, definite, w, u, first, StmtNames(s.body), definite, w, u);
      AlikeStmt(k, tracked, s.body, false, definite, w, u, fuel);
      SoundStmt(k.whole, tracked, s.body, false, definite, u, fuel);
      if q1.Done? && q1.outcome.Normal? {
        var r, q := Eval(k.split, s.condition, r1.world), Eval(k.whole, s.condition, q1.world);
        var test := AnalyzeExpr(tracked, s.condition, first.assignedAfter);
        PartReady(k, tracked, all, names, definite, w, u, test, Names(s.condition),
                  first.assignedAfter, r1.world, q1.world);
        AlikeExpr(k, tracked, s.condition, first.assignedAfter, r1.world, q1.world);
        if k.whole.ops.Truthy(q.value) {
          PartReady(k, tracked, all, names, definite, w, u, all, names, definite, r.world, q.world);
          AlikeDo(k, tracked, s, definite, r.world, q.world, fuel - 1);
        }
      }
    }
  }

  function TestValue(cx: Context, test: Option<Expr>, w: World): Evaluated {
    if test.None? then Evaluated(ONE, w) else Eval(cx, test.value, w)
  }

  lemma AlikeTest(k: Storages, tracked: set<string>, test: Option<Expr>, definite: set<string>, w: World, u: World)
    requires test.Some? ==> Orderly(test.value)
    requires Ready(k, tracked, AnalyzeTest(tracked, test, definite), if test.Some? then Names(test.value)
                   else {}, definite, w, u)
    ensures
      var r, s := TestValue(k.split, test, w), TestValue(k.whole, test, u);
      AlikeValues(k, r, s) && Unread(k, s.world)
        && AnalyzeTest(tracked, test, definite).assignedAfter <= s.world.written
      && u.written <= s.world.written
  {
    hide Eval, AnalyzeExpr, Alike, Unread, Names, Orderly;
    if test.Some? { AlikeExpr(k, tracked, test.value, definite, w, u); }
  }

  /** The update of a `for` loop whose body fell through. */
  lemma AlikeUpdate(k: Storages, tracked: set<string>, s: Stmt, definite: set<string>,
                    w: World, u: World, w1: World, u1: World)
    requires s.For? && OrderlyStmt(s, true)
      && Ready(k, tracked, AnalyzeTurn(tracked, s, definite), StmtNames(s), definite, w, u)
    requires Alike(k, w1, u1) && Unread(k, u1) && u.written <= u1.written
    requires AnalyzeStmt(tracked, s.body,
                         AnalyzeTest(tracked, s.test, definite).assignedAfter).assignedAfter <= u1.written
    ensures Ready(k, tracked, AnalyzeTurn(tracked, s, definite), StmtNames(s), definite, EvalAll(k.split, s.update, w1),
                  EvalAll(k.whole, s.update, u1))
  {
    hide AnalyzeExpr, Orderly, Alike, Unread, EvalAll, AnalyzeAll, Names, AllNames, AllOrderly, AnalyzeTest;
    var turn := AnalyzeStmt(tracked, s.body, AnalyzeTest(tracked, s.test, definite).assignedAfter);
    AlikeAll(k, tracked, s.update, turn.assignedAfter, w1, u1);
  }

  /** The parts of a turn read nothing early, and touch nothing, that the whole turn does not. */
  lemma TurnParts(tracked: set<string>, s: Stmt, definite: set<string>)
    requires s.For? && OrderlyStmt(s, true)
    ensures
      var all := AnalyzeTurn(tracked, s, definite);
      var test := AnalyzeTest(tracked, s.test, definite);
      var turn := AnalyzeStmt(tracked, s.body, test.assignedAfter);
      && test.readBefore <= all.readBefore && turn.readBefore <= all.readBefore
      && (s.test.Some? ==> Names(s.test.value) <= StmtNames(s) && Orderly(s.test.value))
      && StmtNames(s.body) <= StmtNames(s) && OrderlyStmt(s.body, false)
  {
    hide AnalyzeExpr, AnalyzeAll, Names, AllNames, Orderly;
  }

  lemma EndedNormally(tracked: set<string>, r: Analysis, u: World, result: Result)
    requires Stands(tracked, r, u, result) && result.Done? && result.outcome.Normal?
    ensures r.assignedAfter <= result.world.written && u.written <= result.world.written
  {
  }

  lemma {:induction false} AlikeFor(k: Storages, tracked: set<string>, s: Stmt, definite: set<string>,
                                    w: World, u: World, fuel: nat)
    requires s.For? && OrderlyStmt(s, true)
      && Ready(k, tracked, AnalyzeTurn(tracked, s, definite), StmtNames(s), definite, w, u)
    ensures AlikeResults(k, ExecFor(k.split, s, w, fuel), ExecFor(k.whole, s, u, fuel))
    decreases fuel, s, 1
  {
    if fuel > 0 {
      hide Eval, AnalyzeExpr, Alike, Unread, AnalyzeTest, Ready, AnalyzeStmt, AnalyzeTurn, StmtNames, OrderlyStmt, Exec;
      hide AfterBody;
      TurnParts(tracked, s, definite);
      var all, names := AnalyzeTurn(tracked, s, definite), StmtNames(s);
      var testNames := if s.test.Some? then Names(s.test.value) else {};
      var test, r, q := AnalyzeTest(tracked, s.test, definite), TestValue(k.split, s.test, w),
          TestValue(k.whole, s.test, u);
      ReadyNow(k, tracked, all, names, definite, w, u);
      PartReady(k, tracked, all, names, definite, w, u, test, testNames, definite, w, u);
      AlikeTest(k, tracked, s.test, definite, w, u);
      if s.test.None? || k.whole.ops.Truthy(q.value) {
        PartReady(k, tracked, all, names, definite, w, u, all, names, definite, r.world, q.world);
        AlikeTurn(k, tracked, s, definite, r.world, q.world, fuel);
      }
    }
  }

  /** The body of a `for` loop after its test, and every turn after it. */
  lemma {:induction false} AlikeTurn(k: Storages, tracked: set<string>, s: Stmt, definite: set<string>,
                                     w: World, u: World, fuel: nat)
    requires s.For? && OrderlyStmt(s, true)
      && Ready(k, tracked, AnalyzeTurn(tracked, s, definite), StmtNames(s), definite, w, u)
    requires AnalyzeTest(tracked, s.test, definite).assignedAfter <= u.written && fuel > 0
    ensures AlikeResults(k, AfterBody(k.split, s, Exec(k.split, s.body, w, fuel), fuel - 1),
                         AfterBody(k.whole, s, Exec(k.whole, s.body, u, fuel), fuel - 1))
    decreases fuel, s, 0
  {
    hide Eval, AnalyzeExpr, Orderly, Alike, Unread, EvalAll, AnalyzeAll, Names, AllNames, AllOrderly, AnalyzeTest;
    hide Ready;
    hide AnalyzeStmt, AnalyzeTurn, StmtNames, OrderlyStmt, Exec, Stands;
    TurnParts(tracked, s, definite);
    var all, names, test := AnalyzeTurn(tracked, s, definite), StmtNames(s), AnalyzeTest(tracked, s.test, definite);
    var turn := AnalyzeStmt(tracked, s.body, test.assignedAfter);
    var r, q := Exec(k.split, s.body, w, fuel), Exec(k.whole, s.body, u, fuel);
    ReadyNow(k, tracked, all, names, definite, w, u);
    PartReady(k, tracked, all, names, definite, w, u, turn, StmtNames(s.body), test.assignedAfter, w, u);
    AlikeStmt(k, tracked, s.body, false, test.assignedAfter, w, u, fuel);
    SoundStmt(k.whole, tracked, s.body, false, test.assignedAfter, u, fuel);
    if q.Done? && q.outcome.Normal? {
      EndedNormally(tracked, turn, u, q);
      AlikeUpdate(k, tracked, s, definite, w, u, r.world, q.world);
      AlikeFor(k, tracked, s, definite, EvalAll(k.split, s.update, r.world),
               EvalAll(k.whole, s.update, q.world), fuel - 1);
    }
  }

  // ----- Phases -----

  lemma {:induction false} AlikeActions(k: Storages, tracked: set<string>, actions: seq<Action>, definite: set<string>,
                                        w: World, u: World, fuel: nat)
    requires forall a :: a in actions ==> OrderlyAction(a)
    requires Ready(k, tracked, AnalyzeActions(tracked, actions, definite), ActionsNames(actions), definite, w, u)
    ensures AlikeResults(k, ExecActions(k.split, actions, w, fuel), ExecActions(k.whole, actions, u, fuel))
    decreases actions
  {
    if actions != [] {
      hide ExecAll, AnalyzeStmts, OrderlyStmt, Alike, Unread, StmtsNames;
      var first := AnalyzeStmts(tracked, actions[0], definite);
      var r, q := ExecAll(k.split, actions[0], w, fuel), ExecAll(k.whole, actions[0], u, fuel);
      assert OrderlyAction(actions[0]);
      AlikeStmts(k, tracked, actions[0], true, definite, w, u, fuel);
      if q.Done? && q.outcome.Normal? {
        SoundStmts(k.whole, tracked, actions[0], true, definite, u, fuel);
        AlikeActions(k, tracked, actions[1..], first.assignedAfter, r.world, q.world, fuel);
      }
    }
  }

  /** The action of a record item, or the record printed for want of one. */
  lemma AlikeAction(k: Storages, tracked: set<string>, action: Option<Action>, definite: set<string>,
                    w: World, u: World, fuel: nat)
    requires action.Some? ==> OrderlyAction(action.value)
    requires action.Some? ==>
      Ready(k, tracked, AnalyzeStmts(tracked, action.value, definite), StmtsNames(action.value), definite, w, u)
    requires Alike(k, w, u) && Unread(k, u)
    ensures
      var r, s := ExecAction(k.split, action, w, fuel), ExecAction(k.whole, action, u, fuel);
      AlikeResults(k, r, s) && (s.Done? && definite <= u.written ==> definite <= s.world.written)
  {
    hide ExecAll, AnalyzeStmts, OrderlyStmt, Alike, StmtsNames;
    if action.Some? {
      AlikeStmts(k, tracked, action.value, true, definite, w, u, fuel);
      SoundStmts(k.whole, tracked, action.value, true, definite, u, fuel);
    } else {
      AlikeEmit(k, PrintedRecord, w, u);
    }
  }

  lemma AlikeWhen(k: Storages, tracked: set<string>, item: RecordItem, definite: set<string>,
                  w: World, u: World, fuel: nat)
    requires item.pattern.When? && OrderlyItem(item)
      && Ready(k, tracked, AnalyzeItem(tracked, item, definite), ItemNames(item), definite, w, u)
    ensures AlikeResults(k, ExecItem(k.split, item, w, fuel), ExecItem(k.whole, item, u, fuel))
  {
    hide ExecAction, AnalyzeStmts, OrderlyStmt, Alike, Unread, StmtsNames, Eval, AnalyzeExpr, Orderly, Names;
    var test := item.pattern.test;
    AlikeExpr(k, tracked, test, definite, w, u);
    var r, q := Eval(k.split, test, w), Eval(k.whole, test, u);
    if k.whole.ops.Truthy(q.value) {
      AlikeAction(k, tracked, item.action, AnalyzeExpr(tracked, test, definite).assignedAfter, r.world, q.world, fuel);
    }
  }

  /** The flag of a range is always kept in the state. */
  lemma AlikeFlag(k: Storages, tracked: set<string>, state: string, w: World, u: World)
    requires k.Valid() && k.apart <= tracked && NoRangeName(tracked) && RangeName(state)
      && Alike(k, w, u) && Unread(k, u)
    ensures Read(k.split, state, w) == Read(k.whole, state, u)
    ensures Alike(k, NoteRead(state, w), NoteRead(state, u)) && Unread(k, NoteRead(state, u))
  {
    assert state !in k.apart;
  }

  lemma AlikeEndRange(k: Storages, tracked: set<string>, item: RecordItem, definite: set<string>,
                      w: World, u: World, fuel: nat)
    requires item.pattern.Range? && OrderlyItem(item) && k.apart <= tracked && NoRangeName(tracked)
    requires Ready(k, tracked, AnalyzeItem(tracked, item, definite), ItemNames(item), definite, w, u)
    ensures
      var right, state := item.pattern.right, item.pattern.state;
      AlikeResults(k, EndRange(k.split, right, state, ExecAction(k.split, item.action, w, fuel)),
                   EndRange(k.whole, right, state, ExecAction(k.whole, item.action, u, fuel)))
  {
    hide ExecAction, AnalyzeStmts, OrderlyStmt, Alike, StmtsNames, Eval, AnalyzeExpr, Orderly, Names, RangeName;
    var right, state := item.pattern.right, item.pattern.state;
    var r, q := ExecAction(k.split, item.action, w, fuel), ExecAction(k.whole, item.action, u, fuel);
    AlikeAction(k, tracked, item.action, definite, w, u, fuel);
    if q.Done? && q.outcome.Normal? {
      AlikeExpr(k, tracked, right, definite, r.world, q.world);
      var rv, qv := Eval(k.split, right, r.world), Eval(k.whole, right, q.world);
      assert k.Touches({state});
      AlikeWrite(k, state, FromBool(!k.whole.ops.Truthy(qv.value)), rv.world, qv.world);
    }
  }

  lemma AlikeRange(k: Storages, tracked: set<string>, item: RecordItem, definite: set<string>,
                   w: World, u: World, fuel: nat)
    requires item.pattern.Range? && OrderlyItem(item) && k.apart <= tracked && NoRangeName(tracked)
    requires Ready(k, tracked, AnalyzeItem(tracked, item, definite), ItemNames(item), definite, w, u)
    ensures AlikeResults(k, ExecItem(k.split, item, w, fuel), ExecItem(k.whole, item, u, fuel))
  {
    hide ExecAction, AnalyzeStmts, OrderlyStmt, Alike, Unread, StmtsNames, Eval, AnalyzeExpr, Orderly, Names, RangeName;
    hide Read, NoteRead, EndRange;
    var p := item.pattern;
    var w1, u1 := NoteRead(p.state, w), NoteRead(p.state, u);
    AlikeFlag(k, tracked, p.state, w, u);
    SameWritten(p.state, u);
    AlikeEndRange(k, tracked, item, definite, w1, u1, fuel);
    AlikeExpr(k, tracked, p.left, definite, w1, u1);
    AlikeEndRange(k, tracked, item, definite, Eval(k.split, p.left, w1).world, Eval(k.whole, p.left, u1).world, fuel);
  }

  lemma SameWritten(x: string, w: World)
    ensures NoteRead(x, w).written == w.written
  {
  }

  lemma AlikeItem(k: Storages, tracked: set<string>, item: RecordItem, definite: set<string>,
                  w: World, u: World, fuel: nat)
    requires OrderlyItem(item) && k.apart <= tracked && NoRangeName(tracked)
    requires Ready(k, tracked, AnalyzeItem(tracked, item, definite), ItemNames(item), definite, w, u)
    ensures AlikeResults(k, ExecItem(k.split, item, w, fuel), ExecItem(k.whole, item, u, fuel))
  {
    hide ExecAction, AnalyzeStmts, OrderlyStmt, Alike, Unread, StmtsNames, Eval, AnalyzeExpr, Orderly, Names;
    match item.pattern
    case Always => AlikeAction(k, tracked, item.action, definite, w, u, fuel);
    case When(_) => AlikeWhen(k, tracked, item, definite, w, u, fuel);
    case Range(_, _, _) => AlikeRange(k, tracked, item, definite, w, u, fuel);
  }

  lemma {:induction false} AlikeItems(k: Storages, tracked: set<string>, items: seq<RecordItem>, definite: set<string>,
                                      w: World, u: World, fuel: nat)
    requires (forall i :: i in items ==> OrderlyItem(i)) && k.apart <= tracked && NoRangeName(tracked)
    requires Ready(k, tracked, AnalyzeItems(tracked, items, definite), ItemsNames(items), definite, w, u)
    ensures AlikeResults(k, ExecItems(k.split, items, w, fuel), ExecItems(k.whole, items, u, fuel))
    decreases items
  {
    if items != [] {
      hide ExecItem, AnalyzeItem, OrderlyItem, Alike, Unread, ItemNames;
      var first := AnalyzeItem(tracked, items[0], definite);
      var r, q := ExecItem(k.split, items[0], w, fuel), ExecItem(k.whole, items[0], u, fuel);
      AlikeItem(k, tracked, items[0], definite, w, u, fuel);
      if q.Done? && q.outcome.Normal? {
        SoundItem(k.whole, tracked, items[0], definite, u, fuel);
        AlikeItems(k, tracked, items[1..], first.assignedAfter, r.world, q.world, fuel);
      }
    }
  }

  lemma AlikePhase(k: Storages, tracked: set<string>, phase: Phase, w: World, u: World, fuel: nat)
    requires OrderlyPhase(phase) && k.apart <= tracked && NoRangeName(tracked)
    requires Ready(k, tracked, AnalyzePhase(tracked, phase), PhaseNames(phase), {}, w, u)
    ensures AlikeResults(k, ExecPhase(k.split, phase, w, fuel), ExecPhase(k.whole, phase, u, fuel))
  {
    hide Alike, Unread, Ready;
    match phase
    case Actions(actions) => AlikeActions(k, tracked, actions, {}, w, u, fuel);
    case Items(items) => AlikeItems(k, tracked, items, {}, w, u, fuel);
  }

  // ----- A whole program -----

  /** Where the program's variables are kept: the names local to each kind of call. */
  datatype Layout = Layout(begin: set<string>, record: set<string>, end: set<string>)

  const NOTHING_LOCAL := Layout({}, {}, {})

  /** The world outside: the operations, and what it makes of the run so far, that is of the output and
      of the places in it at which the records were handed out. It supplies the next record, if there is
      one, and the numbers the runtime keeps; at the end it matters whether the program has asked to exit
      or has been told that there is no record left. */
  datatype Outside = Outside(
    ops: FloatOps,
    atBegin: BuiltinValues,
    next: (seq<nat>, seq<Event>) -> Option<BuiltinValues>,
    atEnd: (seq<nat>, seq<Event>, bool) -> BuiltinValues)

  /** What a program leaves behind from one call to the next, and how much had been printed when each
      record was handed out. */
  datatype Kept = Kept(persistent: map<string, Double>, output: seq<Event>, exit: Option<int>, taken: seq<nat>)

  function Next(out: Outside, s: Kept): Option<BuiltinValues> {
    out.next(s.taken, s.output)
  }

  function AtEnd(out: Outside, s: Kept): BuiltinValues {
    out.atEnd(s.taken, s.output, s.exit.Some?)
  }

  /** A record is handed out. */
  function Taking(s: Kept): Kept {
    s.(taken := s.taken + [|s.output|])
  }

  /** One call: the frame starts out at zero and is gone afterwards. */
  function Call(ops: FloatOps, reading: Reading, builtins: BuiltinValues, locals: set<string>, phase: Phase,
                s: Kept, fuel: nat): Option<Kept> {
    var w := World(s.persistent, map[], s.output, s.exit, {}, {});
    match ExecPhase(Context(ops, builtins, locals, reading), phase, w, fuel)
    case OutOfFuel(_) => None
    case Done(_, w1) => Some(Kept(w1.persistent, w1.output, w1.exit, s.taken))
  }

  /** One record call for each record, until there is none or `exit` has been asked for. */
  function RecordLoop(out: Outside, reading: Reading, locals: set<string>, items: seq<RecordItem>,
                      s: Kept, fuel: nat): Option<Kept>
    decreases fuel
  {
    if s.exit.Some? then Some(s) else
    match Next(out, s)
    case None => Some(s)
    case Some(builtins) =>
      if fuel == 0 then None else
      var s1 :- Call(out.ops, reading, builtins, locals, Items(items), Taking(s), fuel);
      RecordLoop(out, reading, locals, items, s1, fuel - 1)
  }

  /** BEGIN, then the records unless nothing needs them, then END, which runs even after `exit`. */
  function RunProgram(out: Outside, reading: Reading, layout: Layout, p: Program, s: Kept, fuel: nat): Option<Kept> {
    var s1 :- Call(out.ops, reading, out.atBegin, layout.begin, Actions(p.begin), s, fuel);
    var s2 :- if p.items == [] && p.end == [] then Some(s1)
        else RecordLoop(out, reading, layout.record, p.items, s1, fuel);
    Call(out.ops, reading, AtEnd(out, s2), layout.end, Actions(p.end), s2, fuel)
  }

  // ----- What a program has printed when the fuel runs out -----

  function CallOutput(ops: FloatOps, reading: Reading, builtins: BuiltinValues, locals: set<string>, phase: Phase,
                      s: Kept, fuel: nat): seq<Event> {
    ExecPhase(Context(ops, builtins, locals, reading), phase, World(s.persistent, map[], s.output, s.exit, {}, {}),
              fuel).world.output
  }

  function LoopOutput(out: Outside, reading: Reading, locals: set<string>, items: seq<RecordItem>,
                      s: Kept, fuel: nat): seq<Event>
    decreases fuel
  {
    var next := Next(out, s);
    if s.exit.Some? || next.None? || fuel == 0 then s.output else
    match Call(out.ops, reading, next.value, locals, Items(items), Taking(s), fuel)
    case None => CallOutput(out.ops, reading, next.value, locals, Items(items), Taking(s), fuel)
    case Some(s1) => LoopOutput(out, reading, locals, items, s1, fuel - 1)
  }

  /** What the program has printed, ended or not. */
  function ProgramOutput(out: Outside, reading: Reading, layout: Layout, p: Program, s: Kept, fuel: nat): seq<Event> {
    match Call(out.ops, reading, out.atBegin, layout.begin, Actions(p.begin), s, fuel)
    case None => CallOutput(out.ops, reading, out.atBegin, layout.begin, Actions(p.begin), s, fuel)
    case Some(s1) =>
      match if p.items == [] && p.end == [] then Some(s1)
        else RecordLoop(out, reading, layout.record, p.items, s1, fuel)
      case None => LoopOutput(out, reading, layout.record, p.items, s1, fuel)
      case Some(s2) => CallOutput(out.ops, reading, AtEnd(out, s2), layout.end, Actions(p.end), s2, fuel)
  }

  predicate OrderlyProgram(p: Program) {
    OrderlyPhase(Actions(p.begin)) && OrderlyPhase(Items(p.items)) && OrderlyPhase(Actions(p.end))
  }

  /** Same output, same exit status, the same records handed out at the same places, and the same values
      except in names that are local somewhere. */
  ghost predicate SameSeen(apart: set<string>, r: Option<Kept>, s: Option<Kept>) {
    && (r.Some? <==> s.Some?)
    && (r.Some? ==>
      && r.value.output == s.value.output && r.value.exit == s.value.exit && r.value.taken == s.value.taken
      && forall x :: x !in apart ==> Lookup(r.value.persistent, x) == Lookup(s.value.persistent, x))
  }

  lemma AlikeCall(ops: FloatOps, reading: Reading, builtins: BuiltinValues, tracked: set<string>,
                  locals: set<string>, apart: set<string>,
                  phase: Phase, s: Kept, t: Kept, fuel: nat)
    requires OrderlyPhase(phase) && NoRangeName(tracked) && locals <= apart <= tracked
      && SameSeen(apart, Some(s), Some(t))
    requires PhaseNames(phase) * apart <= locals && AnalyzePhase(tracked, phase).readBefore * locals == {}
    ensures SameSeen(apart, Call(ops, reading, builtins, locals, phase, s, fuel),
                     Call(ops, reading, builtins, {}, phase, t, fuel))
    ensures CallOutput(ops, reading, builtins, locals, phase, s, fuel)
      == CallOutput(ops, reading, builtins, {}, phase, t, fuel)
  {
    hide OrderlyPhase, AnalyzePhase, ExecPhase, PhaseNames;
    var split := Context(ops, builtins, locals, reading);
    var k := Storages(split, split.(locals := {}), apart);
    var w, u := World(s.persistent, map[], s.output, s.exit, {}, {}),
        World(t.persistent, map[], t.output, t.exit, {}, {});
    AlikePhase(k, tracked, phase, w, u, fuel);
  }

  lemma {:induction false} AlikeRecords(out: Outside, reading: Reading, tracked: set<string>,
                                        locals: set<string>, apart: set<string>,
                                        items: seq<RecordItem>, s: Kept, t: Kept, fuel: nat)
    requires OrderlyPhase(Items(items)) && NoRangeName(tracked) && locals <= apart <= tracked
      && SameSeen(apart, Some(s), Some(t))
    requires PhaseNames(Items(items)) * apart <= locals && AnalyzePhase(tracked, Items(items)).readBefore * locals == {}
    ensures SameSeen(apart, RecordLoop(out, reading, locals, items, s, fuel),
                     RecordLoop(out, reading, {}, items, t, fuel))
    ensures LoopOutput(out, reading, locals, items, s, fuel) == LoopOutput(out, reading, {}, items, t, fuel)
    decreases fuel
  {
    hide OrderlyPhase, AnalyzePhase, PhaseNames, Call, CallOutput;
    var next := Next(out, s);
    if s.exit.None? && next.Some? && fuel > 0 {
      AlikeCall(out.ops, reading, next.value, tracked, locals, apart, Items(items), Taking(s), Taking(t), fuel);
      var s1 := Call(out.ops, reading, next.value, locals, Items(items), Taking(s), fuel);
      var t1 := Call(out.ops, reading, next.value, {}, Items(items), Taking(t), fuel);
      if s1.Some? { AlikeRecords(out, reading, tracked, locals, apart, items, s1.value, t1.value, fuel - 1); }
    }
  }

  // ----- The classification is safe -----

  function LayoutOf(r: Residency): Layout {
    Layout(r.begin, r.record, r.end)
  }

  lemma InOneUnit(units: seq<Analysis>, i: int, j: int, x: string)
    requires 0 <= i < |units| && 0 <= j < |units| && x in units[i].encountered && x in units[j].encountered
      && !SharedBy(units, x)
    ensures i == j
  {
  }

  /** A name local to one unit is mentioned by no other, and no unit reads its own local names early. */
  lemma LocalsApart(p: Program, tracked: set<string>, r: Residency)
    requires Classifies(p, tracked, r) && OrderlyProgram(p) && NoRangeName(tracked)
    ensures r.All() <= tracked
    ensures PhaseNames(Actions(p.begin)) * r.All() <= r.begin
      && AnalyzePhase(tracked, Actions(p.begin)).readBefore * r.begin == {}
    ensures PhaseNames(Items(p.items)) * r.All() <= r.record
      && AnalyzePhase(tracked, Items(p.items)).readBefore * r.record == {}
    ensures PhaseNames(Actions(p.end)) * r.All() <= r.end
      && AnalyzePhase(tracked, Actions(p.end)).readBefore * r.end == {}
  {
    var units := Units(p, tracked);
    var phases := [Actions(p.begin), Items(p.items), Actions(p.end)];
    forall i | 0 <= i < 3
      ensures units[i] == AnalyzePhase(tracked, phases[i]) && units[i].encountered == PhaseNames(phases[i]) * tracked
      ensures units[i].assignedNames <= units[i].encountered
    {
      PhaseSeen(tracked, phases[i]);
    }
    forall x, i, j | 0 <= i < 3 && 0 <= j < 3 && LocalTo(units, units[i], x) && x in PhaseNames(phases[j])
      ensures LocalTo(units, units[j], x) && x in tracked
    {
      InOneUnit(units, i, j, x);
    }
  }

  /** The whole program cannot tell where its variables are kept, not even a program that does not end. */
  lemma StorageUnobservable(out: Outside, reading: Reading, p: Program, tracked: set<string>,
                            r: Residency, s: Kept, fuel: nat)
    requires Classifies(p, tracked, r) && OrderlyProgram(p) && NoRangeName(tracked)
    ensures SameSeen(r.All(), RunProgram(out, reading, LayoutOf(r), p, s, fuel),
                     RunProgram(out, reading, NOTHING_LOCAL, p, s, fuel))
    ensures ProgramOutput(out, reading, LayoutOf(r), p, s, fuel)
      == ProgramOutput(out, reading, NOTHING_LOCAL, p, s, fuel)
    ensures r.stateBacked * r.All() == {}
  {
    hide OrderlyPhase, AnalyzePhase, PhaseNames, Call, RecordLoop, Classifies, CallOutput, LoopOutput;
    Backed(p, tracked, r);
    LocalsApart(p, tracked, r);
    AlikeCall(out.ops, reading, out.atBegin, tracked, r.begin, r.All(), Actions(p.begin), s, s, fuel);
    var s1 := Call(out.ops, reading, out.atBegin, r.begin, Actions(p.begin), s, fuel);
    var t1 := Call(out.ops, reading, out.atBegin, {}, Actions(p.begin), s, fuel);
    if s1.Some? {
      var looped := !(p.items == [] && p.end == []);
      AlikeRecords(out, reading, tracked, r.record, r.All(), p.items, s1.value, t1.value, fuel);
      var s2 := if looped then RecordLoop(out, reading, r.record, p.items, s1.value, fuel) else s1;
      var t2 := if looped then RecordLoop(out, reading, {}, p.items, t1.value, fuel) else t1;
      if s2.Some? {
        AlikeCall(out.ops, reading, AtEnd(out, s2.value), tracked, r.end, r.All(),
                  Actions(p.end), s2.value, t2.value, fuel);
      }
    }
  }

  lemma Backed(p: Program, tracked: set<string>, r: Residency)
    requires Classifies(p, tracked, r)
    ensures r.stateBacked * r.All() == {}
  {
  }
}

/** A generated phase function, run from its entry block, does what the phase means. */
module PhaseSimulation {
  import opened Options
  import opened Syntax
  import opened Meaning
  import opened Machine
  import opened ExprSimulation
  import opened StmtSimulation
  import opened WellFormed
  import opened WellFormedStmt
  import LS = LoweringSpec

  // ----- Well-formed phases -----

  lemma Within0(l: Label)
    ensures Outside(LS.AT_START) == {LS.EXIT}
  {
  }

  lemma LowersAction(locals: set<string>, action: Action, to: LS.Targets, em: Emitter, l: Label, t: Temp)
    requires LS.LowerAction(locals, action, to, em).Some?
    ensures Lowers(locals, em, LS.LowerAction(locals, action, to, em).value, l, t, Outside(to))
  {
    hide Owes, Lowers, Outside, LS.Emitter.Put, LS.Extends, LS.Statements;
    var n, out := em.nextLabel, Outside(to);
    var kept := LS.Emitted(action);
    var em1 := LS.Statements(locals, kept, to, em.Labels(1)).value;
    assert em.Temps(0).Labels(1) == em.Labels(1);
    LowersSelf(locals, em, l, t);
    Widen(locals, em, em, l, t, {}, out);
    OwesNothing(locals, em, em, {}, {}, l, t, out);
    OwesTaken(locals, em, em, 1, 0, {}, {n}, {}, l, t, out);
    LowersStatements(locals, kept, to, em.Labels(1), l, t);
    OwesThen(locals, em, em.Labels(1), em1, {n}, {}, l, t, out, out);
    OwesMark(locals, em, em1, n, l, t, out);
    OwesBlock(locals, em, em1, Br(n), n, {n}, {}, {}, l, t, out);
    OwesNothing(locals, em, LS.Close(n, n, em1), {}, {}, l, t, out);
  }

  lemma LowersActionOrDefault(locals: set<string>, action: Option<Action>, to: LS.Targets,
                              em: Emitter, l: Label, t: Temp)
    requires LS.ActionOrDefault(locals, action, to, em).Some?
    ensures Lowers(locals, em, LS.ActionOrDefault(locals, action, to, em).value, l, t, Outside(to))
  {
    hide Lowers, LS.LowerAction, LS.DefaultPrint;
    if action.None? {
      LowersDefaultPrint(locals, em, l, t);
      Widen(locals, em, LS.DefaultPrint(em), l, t, {}, Outside(to));
    } else {
      LowersAction(locals, action.value, to, em, l, t);
    }
  }

  lemma LowersRangeEnd(locals: set<string>, right: Expr, flag: Address, em: Emitter, l: Label, t: Temp)
    ensures Lowers(locals, em, LS.RangeEnd(locals, right, flag, em), l, t, {})
  {
    hide Lowers, LS.Last, LS.Condition, LS.Extends;
    var c := LS.Condition(locals, right, em);
    var keep := LS.Last(Invert(c.em.nextTemp, c.operand), c.em);
    var number := LS.Last(BoolToDouble(keep.em.nextTemp, keep.operand), keep.em);
    LowersCondition(locals, right, em, l, t);
    LowersLast(locals, c.em, Invert(c.em.nextTemp, c.operand), l, t);
    LowersLast(locals, keep.em, BoolToDouble(keep.em.nextTemp, keep.operand), l, t);
    LowersPlain(locals, number.em, Store(number.operand, flag), l, t);
    LowersThen(locals, em, c.em, keep.em, l, t, {}, {});
    LowersThen(locals, em, keep.em, number.em, l, t, {}, {});
    LowersThen(locals, em, number.em, LS.RangeEnd(locals, right, flag, em), l, t, {}, {});
  }

  lemma LowersWhen(locals: set<string>, item: RecordItem, to: LS.Targets, em: Emitter, l: Label, t: Temp)
    requires item.pattern.When? && LS.LowerWhen(locals, item, to, em).Some?
    ensures Lowers(locals, em, LS.LowerWhen(locals, item, to, em).value, l, t, Outside(to))
  {
    hide Owes, Lowers, Outside, LS.Emitter.Put, LS.Extends, LS.Condition, LS.ActionOrDefault;
    var c, out := LS.Condition(locals, item.pattern.test, em), Outside(to);
    var n, ready := c.em.nextLabel, c.em.Labels(2);
    assert c.em.Temps(0).Labels(2) == ready;
    LowersCondition(locals, item.pattern.test, em, l, t);
    Widen(locals, em, c.em, l, t, {}, out);
    OwesNothing(locals, em, c.em, {}, {}, l, t, out);
    OwesTaken(locals, em, c.em, 2, 0, {}, {n, n + 1}, {}, l, t, out);
    OwesBlock(locals, em, ready, CondBr(c.operand, n, n + 1), n, {n, n + 1}, {n + 1}, {}, l, t, out);
    var fork := LS.Fork(c.operand, n, n + 1, ready);
    var done := LS.ActionOrDefault(locals, item.action, to, fork).value;
    LowersActionOrDefault(locals, item.action, to, fork, l, t);
    OwesThen(locals, em, fork, done, {n + 1}, {}, l, t, out, out);
    OwesBlock(locals, em, done, Br(n + 1), n + 1, {n + 1}, {}, {}, l, t, out);
    OwesNothing(locals, em, LS.Close(n + 1, n + 1, done), {}, {}, l, t, out);
  }

  /** The part of a range item before its first action. */
  lemma LowersFlag(locals: set<string>, state: string, em: Emitter, l: Label, t: Temp)
    ensures
      Lowers(locals, em, LS.RangeFlag(LS.VariableAddress(locals, state, em)).em, l, t, {})
  {
    hide Lowers, LS.Last, LS.Extends, LS.VariableAddress;
    var flag := LS.VariableAddress(locals, state, em);
    var value := LS.Last(Load(flag.em.nextTemp, flag.address), flag.em);
    var test := LS.Last(FCmp(value.em.nextTemp, NotEqual, value.operand, Literal(ZERO)), value.em);
    LowersAddress(locals, state, em, l, t);
    LowersLast(locals, flag.em, Load(flag.em.nextTemp, flag.address), l, t);
    LowersLast(locals, value.em, FCmp(value.em.nextTemp, NotEqual, value.operand, Literal(ZERO)), l, t);
    LowersThen(locals, em, flag.em, value.em, l, t, {}, {});
    LowersThen(locals, em, value.em, test.em, l, t, {}, {});
  }

  lemma LowersRange(locals: set<string>, item: RecordItem, to: LS.Targets, em: Emitter, l: Label, t: Temp)
    requires item.pattern.Range? && LS.LowerRange(locals, item, to, em).Some?
    ensures Lowers(locals, em, LS.LowerRange(locals, item, to, em).value, l, t, Outside(to))
  {
    hide Owes, Lowers, Outside, LS.Emitter.Put, LS.Extends, LS.ActionOrDefault, LS.RangeEnd, LS.RangeFlag;
    hide LS.VariableAddress, LS.LowerRangeStart;
    var p, out := item.pattern, Outside(to);
    var flag := LS.VariableAddress(locals, p.state, em);
    var test := LS.RangeFlag(flag);
    var n, ready := test.em.nextLabel, test.em.Labels(3);
    assert test.em.Temps(0).Labels(3) == ready;
    LowersFlag(locals, p.state, em, l, t);
    Widen(locals, em, test.em, l, t, {}, out);
    OwesNothing(locals, em, test.em, {}, {}, l, t, out);
    OwesTaken(locals, em, test.em, 3, 0, {}, {n, n + 1, n + 2}, {}, l, t, out);
    OwesBlock(locals, em, ready, CondBr(test.operand, n, n + 1), n, {n, n + 1, n + 2}, {n + 1, n + 2}, {}, l, t, out);
    var fork := LS.Fork(test.operand, n, n + 1, ready);
    var em1 := LS.ActionOrDefault(locals, item.action, to, fork).value;
    var end1 := LS.RangeEnd(locals, p.right, flag.address, em1);
    LowersActionOrDefault(locals, item.action, to, fork, l, t);
    OwesThen(locals, em, fork, em1, {n + 1, n + 2}, {}, l, t, out, out);
    LowersRangeEnd(locals, p.right, flag.address, em1, l, t);
    OwesThen(locals, em, em1, end1, {n + 1, n + 2}, {}, l, t, out, {});
    OwesBlock(locals, em, end1, Br(n + 2), n + 1, {n + 1, n + 2}, {n + 2}, {}, l, t, out);
    LowersRangeStart(locals, item, to, flag.address, n + 2, em, LS.Close(n + 2, n + 1, end1), l, t);
  }

  /** The inactive block also places the label the whole range ends with. */
  lemma LowersRangeStart(locals: set<string>, item: RecordItem, to: LS.Targets, flag: Address, end: Label, em: Emitter,
                         idle: Emitter, l: Label, t: Temp)
    requires item.pattern.Range? && LS.LowerRangeStart(locals, item, to, flag, end, idle).Some? && end < idle.nextLabel
    requires Owes(locals, em, idle, {end}, {}, l, t, Outside(to))
    ensures Lowers(locals, em, LS.LowerRangeStart(locals, item, to, flag, end, idle).value, l, t, Outside(to))
  {
    hide Owes, Lowers, Outside, LS.Emitter.Put, LS.Extends, LS.Condition, LS.ActionOrDefault, LS.RangeEnd;
    var p, out := item.pattern, Outside(to);
    var c := LS.Condition(locals, p.left, idle);
    var m, ready := c.em.nextLabel, c.em.Labels(1);
    assert c.em.Temps(0).Labels(1) == ready;
    LowersCondition(locals, p.left, idle, l, t);
    OwesThen(locals, em, idle, c.em, {end}, {}, l, t, out, {});
    OwesTaken(locals, em, c.em, 1, 0, {end}, {end, m}, {}, l, t, out);
    OwesIn(locals, em, idle, {end}, {}, l, t, out);
    OwesBlock(locals, em, ready, CondBr(c.operand, m, end), m, {end, m}, {end}, {}, l, t, out);
    var start := LS.Fork(c.operand, m, end, ready);
    var em3 := LS.ActionOrDefault(locals, item.action, to, start).value;
    var end2 := LS.RangeEnd(locals, p.right, flag, em3);
    LowersActionOrDefault(locals, item.action, to, start, l, t);
    OwesThen(locals, em, start, em3, {end}, {}, l, t, out, out);
    LowersRangeEnd(locals, p.right, flag, em3, l, t);
    OwesThen(locals, em, em3, end2, {end}, {}, l, t, out, {});
    OwesBlock(locals, em, end2, Br(end), end, {end}, {}, {}, l, t, out);
    OwesNothing(locals, em, LS.Close(end, end, end2), {}, {}, l, t, out);
  }

  lemma LowersItem(locals: set<string>, item: RecordItem, to: LS.Targets, em: Emitter, l: Label, t: Temp)
    requires LS.LowerItem(locals, item, to, em).Some?
    ensures Lowers(locals, em, LS.LowerItem(locals, item, to, em).value, l, t, Outside(to))
  {
    hide Lowers, LS.LowerWhen, LS.LowerRange, LS.ActionOrDefault;
    match item.pattern
    case Always => LowersActionOrDefault(locals, item.action, to, em, l, t);
    case When(_) => LowersWhen(locals, item, to, em, l, t);
    case Range(_, _, _) => LowersRange(locals, item, to, em, l, t);
  }

  lemma {:induction false} LowersActions(locals: set<string>, actions: seq<Action>, to: LS.Targets,
                                         em: Emitter, l: Label, t: Temp)
    requires LS.LowerActions(locals, actions, to, em).Some?
    ensures Lowers(locals, em, LS.LowerActions(locals, actions, to, em).value, l, t, Outside(to))
  {
    hide Lowers, LS.LowerAction;
    if actions == [] {
      LowersSelf(locals, em, l, t);
      Widen(locals, em, em, l, t, {}, Outside(to));
    } else {
      var mid := LS.LowerAction(locals, actions[0], to, em).value;
      LowersAction(locals, actions[0], to, em, l, t);
      LowersActions(locals, actions[1..], to, mid, l, t);
      LowersThen(locals, em, mid, LS.LowerActions(locals, actions, to, em).value, l, t, Outside(to), Outside(to));
    }
  }

  lemma {:induction false} LowersItems(locals: set<string>, items: seq<RecordItem>, to: LS.Targets,
                                       em: Emitter, l: Label, t: Temp)
    requires LS.LowerItems(locals, items, to, em).Some?
    ensures Lowers(locals, em, LS.LowerItems(locals, items, to, em).value, l, t, Outside(to))
  {
    hide Lowers, LS.LowerItem;
    if items == [] {
      LowersSelf(locals, em, l, t);
      Widen(locals, em, em, l, t, {}, Outside(to));
    } else {
      var mid := LS.LowerItem(locals, items[0], to, em).value;
      LowersItem(locals, items[0], to, em, l, t);
      LowersItems(locals, items[1..], to, mid, l, t);
      LowersThen(locals, em, mid, LS.LowerItems(locals, items, to, em).value, l, t, Outside(to), Outside(to));
    }
  }

  // ----- The rendered function -----

  lemma {:induction false} CountAppend(code: seq<Instr>, more: seq<Instr>, l: Label, t: Temp)
    ensures
      var a, b, c := Count(code, l, t), Count(more, l, t), Count(code + more, l, t);
      c == Tally(a.marks + b.marks, a.defs + b.defs, a.aims + b.aims)
    decreases more
  {
    if more == [] {
      assert code + more == code;
    } else {
      var m := more[..|more| - 1];
      assert (code + more)[..|code + more| - 1] == code + m;
      CountAppend(code, m, l, t);
    }
  }

  /** The tail every rendered function ends in. */
  const TAIL := [Br(LS.EXIT), Mark(LS.EXIT), Ret]

  lemma CountTail(l: Label, t: Temp)
    ensures Count(TAIL, l, t) == Tally(One(l == LS.EXIT), 0, One(l == LS.EXIT))
  {
    CountAppend([Br(LS.EXIT)] + [Mark(LS.EXIT)], [Ret], l, t);
    CountAppend([Br(LS.EXIT)], [Mark(LS.EXIT)], l, t);
    assert TAIL == [Br(LS.EXIT)] + [Mark(LS.EXIT)] + [Ret];
  }

  lemma {:induction false} MarkedTwice(code: seq<Instr>, i: nat, j: nat, l: Label)
    requires i < j < |code| && code[i] == Mark(l) && code[j] == Mark(l)
    ensures Count(code, l, 0).marks >= 2
  {
    var a, b := code[..j], code[j..];
    assert code == a + b && a == a[..i] + ([Mark(l)] + a[i + 1..]) && b == [Mark(l)] + b[1..];
    CountAppend(a, b, l, 0);
    CountAppend(a[..i], [Mark(l)] + a[i + 1..], l, 0);
    CountAppend([Mark(l)], a[i + 1..], l, 0);
    CountAppend([Mark(l)], b[1..], l, 0);
  }

  lemma {:induction false} FindsFirst(code: seq<Instr>, i: nat, l: Label)
    requires i < |code| && code[i] == Mark(l)
    ensures Find(code, l).Some? && Find(code, l).value <= i && code[Find(code, l).value] == Mark(l)
  {
    if code[0] != Mark(l) { FindsFirst(code[1..], i - 1, l); }
  }

  /** Every label of the rendered function is placed exactly once and every temporary defined
      exactly once, every branch has a target, and every cell is allocated and cleared once. */
  lemma RenderedWellFormed(locals: set<string>, phase: Phase, l: Label, t: Temp)
    requires LS.LowerPhase(locals, phase).Some?
    ensures
      var em := LS.LowerPhase(locals, phase).value;
      var fn := LS.Render(em);
      var tally := Count(fn.body, l, t);
      && tally.marks == One(l < em.nextLabel)
      && tally.defs + multiset(fn.cells)[t] == One(t < em.nextTemp)
      && (tally.aims > 0 ==> tally.marks == 1)
      && Sound(locals, em)
  {
    hide Lowers, LS.LowerActions, LS.LowerItems, Sound;
    var em := LS.LowerPhase(locals, phase).value;
    SoundStart(locals);
    Within0(l);
    match phase
    case Actions(actions) => LowersActions(locals, actions, LS.AT_START, LS.START, l, t); Accounted(locals, em, l, t);
    case Items(items) => LowersItems(locals, items, LS.AT_START, LS.START, l, t); Accounted(locals, em, l, t);
  }

  lemma SoundStart(locals: set<string>)
    ensures Sound(locals, LS.START)
  {
  }

  lemma Accounted(locals: set<string>, em: Emitter, l: Label, t: Temp)
    requires Lowers(locals, LS.START, em, l, t, {LS.EXIT}) && Sound(locals, LS.START)
    ensures
      var fn := LS.Render(em);
      var tally := Count(fn.body, l, t);
      && tally.marks == One(l < em.nextLabel)
      && tally.defs + multiset(fn.cells)[t] == One(t < em.nextTemp)
      && (tally.aims > 0 ==> tally.marks == 1)
      && Sound(locals, em)
  {
    hide Sound;
    CountAppend(em.code, TAIL, l, t);
    CountTail(l, t);
    assert Count(LS.START.code, l, t) == Tally(0, 0, 0);
  }

  // ----- Simulation of actions and record items -----

  predicate ActionJoins(action: Option<Action>) {
    action.Some? ==> forall s :: s in action.value ==> Joins(s)
  }

  predicate ItemJoins(item: RecordItem) {
    ActionJoins(item.action) && match item.pattern
      case Always => true
      case When(test) => ConditionJoins(test)
      case Range(left, right, _) => ConditionJoins(left) && ConditionJoins(right)
  }

  predicate PhaseJoins(phase: Phase) {
    match phase
    case Actions(actions) => forall a :: a in actions ==> ActionJoins(Some(a))
    case Items(items) => forall i :: i in items ==> ItemJoins(i)
  }

  /** Statements after one that always leaves the phase are never run. */
  lemma {:induction false} EmittedMeans(cx: Context, ss: seq<Stmt>, w: World, fuel: nat)
    ensures ExecAll(cx, LS.Emitted(ss), w, fuel) == ExecAll(cx, ss, w, fuel)
    ensures forall s :: s in LS.Emitted(ss) ==> s in ss
    decreases ss
  {
    if ss != [] && !LS.EndsAction(ss[0]) {
      var r, kept := Exec(cx, ss[0], w, fuel), LS.Emitted(ss);
      assert kept[0] == ss[0] && kept[1..] == LS.Emitted(ss[1..]);
      EmittedMeans(cx, ss[1..], if r.Done? then r.world else w, fuel);
      if r.Done? && r.outcome.Normal? { EmittedMeans(cx, ss[1..], r.world, fuel); }
    }
  }

  lemma {:induction false} EmittedUpTo(ss: seq<Stmt>, s: Stmt, rest: seq<Stmt>)
    requires s.NextStmt? || s.NextFileStmt? || s.ExitStmt?
    ensures LS.Emitted(ss + [s] + rest) == LS.Emitted(ss + [s])
    decreases ss
  {
    if ss == [] {
      assert ([] + [s] + rest)[0] == s && ([] + [s])[0] == s;
    } else {
      assert (ss + [s] + rest)[0] == ss[0] == (ss + [s])[0];
      assert (ss + [s] + rest)[1..] == ss[1..] + [s] + rest && (ss + [s])[1..] == ss[1..] + [s];
      EmittedUpTo(ss[1..], s, rest);
    }
  }

  /** Nothing is emitted for what stands in an action behind `next`, `nextfile` or `exit`; without these every
      statement is. */
  lemma RestLeftOut(locals: set<string>, ss: seq<Stmt>, s: Stmt, rest: seq<Stmt>, to: LS.Targets, em: Emitter)
    ensures s.NextStmt? || s.NextFileStmt? || s.ExitStmt? ==>
      LS.LowerAction(locals, ss + [s] + rest, to, em) == LS.LowerAction(locals, ss + [s], to, em)
    ensures (forall t :: t in ss ==> !t.NextStmt? && !t.NextFileStmt? && !t.ExitStmt?) ==>
      var stmts := LS.Statements(locals, ss, to, em.Labels(1));
      LS.LowerAction(locals, ss, to, em) ==
        if stmts.None? then None else Some(LS.Close(em.nextLabel, em.nextLabel, stmts.value))
  {
    hide LS.Statements, LS.Close, LS.Extends;
    if s.NextStmt? || s.NextFileStmt? || s.ExitStmt? { EmittedUpTo(ss, s, rest); }
    if forall t :: t in ss ==> !t.NextStmt? && !t.NextFileStmt? && !t.ExitStmt? { AllEmitted(ss); }
  }

  lemma {:induction false} AllEmitted(ss: seq<Stmt>)
    requires forall t :: t in ss ==> !t.NextStmt? && !t.NextFileStmt? && !t.ExitStmt?
    ensures LS.Emitted(ss) == ss
    decreases ss
  {
    if ss != [] { AllEmitted(ss[1..]); }
  }

  /** An action that ends in a statement leaving the phase never falls through. */
  lemma {:induction false} EndedMeans(cx: Context, ss: seq<Stmt>, w: World, fuel: nat)
    requires ss != [] && LS.EndsAction(ss[|ss| - 1])
    ensures var r := ExecAll(cx, ss, w, fuel); r.Done? ==> r.outcome != Normal
    decreases ss
  {
    if |ss| > 1 {
      var r := Exec(cx, ss[0], w, fuel);
      if r.Done? && r.outcome.Normal? { EndedMeans(cx, ss[1..], r.world, fuel); }
    } else {
      assert ss[1..] == [];
    }
  }

  lemma SimAction(k: Setting, action: Action, to: LS.Targets, em: Emitter, later: Emitter, w: World, c: Config,
                  fuel: nat) returns (n: nat, c': Config)
    requires k.Good() && ActionJoins(Some(action)) && Placed(k, to)
      && LS.LowerAction(k.cx.locals, action, to, em) == Some(later)
    requires Within(k, later) && At(k, em, w, c)
    ensures Ran(k, to, em, later, ExecAll(k.cx, action, w, fuel), fuel, c, n, c')
  {
    EmittedMeans(k.cx, action, w, fuel);
    hide Step, Related, Run, LS.Extends, Find, Within, Reaches, At, Keeps, Setting.Good, LS.Statements, Goes, ExecAll;
    hide Joins, Placed;
    var m, kept := em.nextLabel, LS.Emitted(action);
    var em0 := em.Labels(1);
    var body := LS.Statements(k.cx.locals, kept, to, em0).value;
    var r := ExecAll(k.cx, kept, w, fuel);
    Uncounted(k, em, 1, 0);
    Counted(k, em, 1, 0, w, c);
    Grows(em, em0, body);
    if kept != [] && LS.EndsAction(kept[|kept| - 1]) {
      EndedMeans(k.cx, kept, w, fuel);
      Fetch(k, body, Mark(m));
      n, c' := SimStatements(k, kept, to, em0, body, w, c, fuel);
      Elsewhere(k, to, em0, body, later, r, fuel, c, n, c');
    } else {
      Fetch(k, body.Put(Br(m)), Mark(m));
      Fetch(k, body, Br(m));
      var n1, c1 := SimStatements(k, kept, to, em0, body, w, c, fuel);
      n, c' := SimClose(k, to, em0, body, m, m, body.Put(Br(m)), later, r, fuel, c, n1, c1);
    }
    Recounted(k, to, em, 1, later, r, fuel, c, n, c');
  }

  lemma Recounted(k: Setting, to: LS.Targets, em: Emitter, labels: nat, later: Emitter, r: Result,
                  fuel: nat, c: Config, n: nat, c': Config)
    requires Ran(k, to, em.Labels(labels), later, r, fuel, c, n, c')
    ensures Ran(k, to, em, later, r, fuel, c, n, c')
  {
  }

  lemma SimActionOrDefault(k: Setting, action: Option<Action>, to: LS.Targets, em: Emitter, later: Emitter,
                           w: World, c: Config, fuel: nat)
    returns (n: nat, c': Config)
    requires k.Good() && ActionJoins(action) && Placed(k, to)
      && LS.ActionOrDefault(k.cx.locals, action, to, em) == Some(later)
    requires Within(k, later) && At(k, em, w, c)
    ensures Ran(k, to, em, later, ExecAction(k.cx, action, w, fuel), fuel, c, n, c')
  {
    hide Step, Related, Run, LS.Extends, Find, Within, Reaches, At, Keeps, Setting.Good, LS.LowerAction;
    hide LS.DefaultPrint, Goes, ExecAll, Placed;
    if action.None? {
      n, c' := SimDefaultPrint(k, em, w, c);
      Finished(k, to, em, later, Emit(PrintedRecord, w), fuel, c, n, c');
    } else {
      n, c' := SimAction(k, action.value, to, em, later, w, c, fuel);
    }
  }

  lemma SimWhen(k: Setting, item: RecordItem, to: LS.Targets, em: Emitter, later: Emitter,
                w: World, c: Config, fuel: nat)
    returns (n: nat, c': Config)
    requires item.pattern.When? && k.Good() && ItemJoins(item) && Placed(k, to)
      && LS.LowerWhen(k.cx.locals, item, to, em) == Some(later)
    requires Within(k, later) && At(k, em, w, c)
    ensures Ran(k, to, em, later, ExecItem(k.cx, item, w, fuel), fuel, c, n, c')
  {
    hide Step, Related, Run, LS.Extends, Find, Within, Reaches, At, Keeps, Setting.Good, LS.ActionOrDefault;
    hide LS.Condition, ConditionJoins, Goes, Placed;
    hide ExecAction, Eval;
    var test := item.pattern.test;
    var t, tested := LS.Condition(k.cx.locals, test, em), Eval(k.cx, test, w);
    var m := t.em.nextLabel;
    var ready := t.em.Labels(2);
    var fork := LS.Fork(t.operand, m, m + 1, ready);
    var body := LS.ActionOrDefault(k.cx.locals, item.action, to, fork).value;
    Fetch(k, body.Put(Br(m + 1)), Mark(m + 1));
    Fetch(k, body, Br(m + 1));
    Earlier(k, fork, body);
    Earlier(k, ready, fork);
    Uncounted(k, t.em, 2, 0);
    Grows(t.em, ready, fork);
    Grows(em, t.em, fork);
    var b := k.cx.ops.Truthy(tested.value);
    var n1, c1 := SimCondition(k, test, em, w, c);
    Counted(k, t.em, 2, 0, tested.world, c1);
    var c2 := SimFork(k, t.operand, b, m, m + 1, ready, body.Put(Br(m + 1)), tested.world, c1);
    Then(k, em, c, n1, c1, t.em, 1, c2);
    if b {
      var r := ExecAction(k.cx, item.action, tested.world, fuel);
      var n3, c3 := SimActionOrDefault(k, item.action, to, fork, body, tested.world, c2, fuel);
      var n4, c4 := SimClose(k, to, fork, body, m + 1, m + 1, body.Put(Br(m + 1)), later, r, fuel, c2, n3, c3);
      ThenRan(k, to, em, fork, later, r, fuel, c, n1 + 1, c2, fuel, n4, c4);
      n, c' := n1 + 1 + n4, c4;
    } else {
      n, c' := n1 + 1, c2;
      Finished(k, to, em, later, tested.world, fuel, c, n, c');
    }
  }

  /** The right pattern of a range and the store of its flag. */
  lemma SimRangeEnd(k: Setting, right: Expr, state: string, flag: Address, em: Emitter, w: World, c: Config,
                    below: Temp) returns (n: nat, c': Config)
    requires k.Good() && ConditionJoins(right) && Within(k, LS.RangeEnd(k.cx.locals, right, flag, em))
      && At(k, em, w, c)
    requires Addresses(k, flag, state, c, below) && below <= em.nextTemp
    ensures Reaches(k, c, n, c') && Keeps(c, c', em.nextTemp)
    ensures
      var r := Eval(k.cx, right, w);
      At(k, LS.RangeEnd(k.cx.locals, right, flag, em), Write(k.cx, state, FromBool(!k.cx.ops.Truthy(r.value)), r.world),
         c')
  {
    hide Step, Related, Run, LS.Extends, Find, Within, Reaches, At, Keeps, Setting.Good, LS.Condition, ConditionJoins;
    hide Eval, Write, LS.Last;
    hide LS.Emitter.Put, Addresses;
    var t, v := LS.Condition(k.cx.locals, right, em), Eval(k.cx, right, w);
    var b := k.cx.ops.Truthy(v.value);
    var keep := LS.Last(Invert(t.em.nextTemp, t.operand), t.em);
    var number := LS.Last(BoolToDouble(keep.em.nextTemp, keep.operand), keep.em);
    Fetch(k, number.em, Store(number.operand, flag));
    Earlier(k, keep.em, number.em);
    Earlier(k, t.em, keep.em);
    Grows(em, t.em, keep.em);
    Grows(em, keep.em, number.em);
    var n1, c1 := SimCondition(k, right, em, w, c);
    var c2 := SimInvert(k, t.em, t.operand, b, v.world, c1);
    Then(k, em, c, n1, c1, t.em, 1, c2);
    var c3 := SimWiden(k, keep.em, keep.operand, !b, v.world, c2);
    Then(k, em, c, n1 + 1, c2, keep.em, 1, c3);
    StillAddresses(k, flag, state, c, c3, below, em.nextTemp);
    c' := SimStore(k, number.em, number.operand, FromBool(!b), flag, state, v.world, c3, below);
    KeepsAll(c3, c', number.em.nextTemp);
    Then(k, em, c, n1 + 2, c3, number.em, 1, c');
    n := n1 + 3;
  }

  lemma SimWiden(k: Setting, em: Emitter, o: Operand, b: bool, w: World, c: Config) returns (c': Config)
    requires Within(k, LS.Last(BoolToDouble(em.nextTemp, o), em).em) && At(k, em, w, c)
      && Resolve(o, c.temps) == Some(B(b))
    ensures Computed(k, em, LS.Last(BoolToDouble(em.nextTemp, o), em), w, D(FromBool(b)), c, 1, c')
  {
    hide Step, Related, Run, LS.Extends, Find, Within, Reaches, At, Keeps, LS.Last;
    c' := SimLast(k, em, BoolToDouble(em.nextTemp, o), w, c, D(FromBool(b)));
  }

  lemma SimInvert(k: Setting, em: Emitter, o: Operand, b: bool, w: World, c: Config) returns (c': Config)
    requires Within(k, LS.Last(Invert(em.nextTemp, o), em).em) && At(k, em, w, c) && Resolve(o, c.temps) == Some(B(b))
    ensures Computed(k, em, LS.Last(Invert(em.nextTemp, o), em), w, B(!b), c, 1, c')
  {
    hide Related, Run, LS.Extends, Find, Within, Reaches;
    Fetch(k, em.Temps(1), Invert(em.nextTemp, o));
    c' := Defines(k, em.Temps(1), Invert(em.nextTemp, o), w, c, em.nextTemp, B(!b));
  }

  /** The action of a range item followed by its right pattern, up to the branch that ends it. */
  lemma SimRangeAction(k: Setting, item: RecordItem, to: LS.Targets, flag: Address, em: Emitter,
                       body: Emitter, w: World, c: Config,
                       below: Temp, fuel: nat) returns (n: nat, c': Config)
    requires item.pattern.Range? && k.Good() && ItemJoins(item) && Placed(k, to)
    requires LS.ActionOrDefault(k.cx.locals, item.action, to, em) == Some(body)
    requires Within(k, LS.RangeEnd(k.cx.locals, item.pattern.right, flag, body)) && At(k, em, w, c)
    requires Addresses(k, flag, item.pattern.state, c, below) && below <= em.nextTemp
    ensures
      var r := EndRange(k.cx, item.pattern.right, item.pattern.state, ExecAction(k.cx, item.action, w, fuel));
      Ran(k, to, em, LS.RangeEnd(k.cx.locals, item.pattern.right, flag, body), r, fuel, c, n, c')
  {
    hide Step, Related, Run, LS.Extends, Find, Within, Reaches, At, Keeps, Setting.Good, LS.Condition, ConditionJoins;
    hide Eval, Write, LS.RangeEnd;
    hide ExecAction, LS.ActionOrDefault, Goes, Placed, ActionJoins;
    var p := item.pattern;
    var end := LS.RangeEnd(k.cx.locals, p.right, flag, body);
    var r := ExecAction(k.cx, item.action, w, fuel);
    Earlier(k, body, end);
    var n1, c1 := SimActionOrDefault(k, item.action, to, em, body, w, c, fuel);
    if r.Done? && r.outcome.Normal? {
      Arrived(k, to, em, body, r, fuel, c, n1, c1);
      StillAddresses(k, flag, p.state, c, c1, below, em.nextTemp);
      Grows(em, body, end);
      var n2, c2 := SimRangeEnd(k, p.right, p.state, flag, body, r.world, c1, below);
      Then(k, em, c, n1, c1, body, n2, c2);
      n, c' := n1 + n2, c2;
      Finished(k, to, em, end, EndRange(k.cx, p.right, p.state, r).world, fuel, c, n, c');
    } else {
      n, c' := n1, c1;
      Elsewhere(k, to, em, body, end, r, fuel, c, n, c');
    }
  }

  /** Load and test of a range's flag. */
  lemma SimFlag(k: Setting, state: string, em: Emitter, w: World, c: Config) returns (n: nat, c': Config)
    requires Within(k, LS.RangeFlag(LS.VariableAddress(k.cx.locals, state, em)).em)
    requires k.Good() && At(k, em, w, c)
    ensures
      var flag := LS.VariableAddress(k.cx.locals, state, em);
      var test := LS.RangeFlag(flag);
      && Computed(k, em, test, w, B(k.cx.ops.Truthy(Read(k.cx, state, w))), c, n, c')
      && Addresses(k, flag.address, state, c', flag.em.nextTemp) && LS.Extends(em, test.em)
  {
    hide Step, Related, Run, LS.Extends, Find, Within, Reaches, At, Keeps, Setting.Good, LS.Last, Read;
    hide LS.VariableAddress;
    var flag := LS.VariableAddress(k.cx.locals, state, em);
    var value := LS.Last(Load(flag.em.nextTemp, flag.address), flag.em);
    var i := FCmp(value.em.nextTemp, NotEqual, value.operand, Literal(ZERO));
    var v := Read(k.cx, state, w);
    Earlier(k, value.em, LS.Last(i, value.em).em);
    var n1, c1 := SimFetch(k, state, em, w, c);
    c' := SimLast(k, value.em, i, w, c1, B(k.cx.ops.Truthy(v)));
    Grows(em, value.em, LS.Last(i, value.em).em);
    Grows(flag.em, value.em, LS.Last(i, value.em).em);
    ThenComputes(k, em, c, n1, c1, value.em, LS.Last(i, value.em), w, B(k.cx.ops.Truthy(v)), 1, c');
    StillAddresses(k, flag.address, state, c1, c', flag.em.nextTemp, value.em.nextTemp);
    n := n1 + 1;
  }

  /** The pieces of a range item lie within the function, each after the one before. */
  lemma RangeParts(k: Setting, tested: Emitter, o: Operand, ready: Emitter, fork: Emitter, body: Emitter,
                   end1: Emitter, idle: Emitter,
                   tested2: Emitter, o2: Operand, ready2: Emitter, start: Emitter, body2: Emitter,
                     end2: Emitter, l: Label, l2: Label)
    requires ready == tested.Labels(3) && fork == LS.Fork(o, l, l + 1, ready) && LS.Extends(fork, body)
      && LS.Extends(body, end1)
    requires idle == LS.Close(l + 2, l + 1, end1) && LS.Extends(idle, tested2)
    requires ready2 == tested2.Labels(1) && start == LS.Fork(o2, l2, l + 2, ready2) && LS.Extends(start, body2)
      && LS.Extends(body2, end2)
    requires Within(k, LS.Close(l + 2, l + 2, end2))
    ensures Within(k, end2.Put(Br(l + 2))) && Within(k, end2) && Within(k, start)
      && Within(k, ready2) && Within(k, tested2)
    ensures Within(k, idle) && Within(k, end1.Put(Br(l + 2))) && Within(k, end1) && Within(k, fork)
      && Within(k, ready) && Within(k, tested)
    ensures LS.Extends(tested, fork) && LS.Extends(fork, idle) && LS.Extends(fork, end1) && LS.Extends(tested2, start)
      && LS.Extends(start, end2)
    ensures LS.Extends(idle, start)
  {
    hide LS.Extends, Within, LS.Emitter.Put;
    Fetch(k, end2.Put(Br(l + 2)), Mark(l + 2));
    Fetch(k, end2, Br(l + 2));
    Grows(start, body2, end2);
    Earlier(k, start, end2);
    Earlier(k, ready2, start);
    Uncounted(k, tested2, 1, 0);
    Grows(tested2, ready2, start);
    Grows(idle, tested2, start);
    Earlier(k, idle, tested2);
    Fetch(k, end1.Put(Br(l + 2)), Mark(l + 1));
    Fetch(k, end1, Br(l + 2));
    Grows(fork, body, end1);
    Grows(fork, end1, idle);
    Earlier(k, fork, end1);
    Earlier(k, ready, fork);
    Uncounted(k, tested, 3, 0);
    Grows(tested, ready, fork);
  }

  /** A range item from its inactive block on: the left pattern decides whether the record starts the range. */
  lemma SimRangeIdle(k: Setting, item: RecordItem, to: LS.Targets, flag: Address,
                     idle: Emitter, t: LS.Lowered, end: Label,
                     body: Emitter, end2: Emitter, later: Emitter, w: World, c: Config, below: Temp, fuel: nat)
    returns (n: nat, c': Config)
    requires item.pattern.Range? && k.Good() && ItemJoins(item) && Placed(k, to)
      && t == LS.Condition(k.cx.locals, item.pattern.left, idle)
    requires
      var start := LS.Fork(t.operand, t.em.nextLabel, end, t.em.Labels(1));
      && LS.ActionOrDefault(k.cx.locals, item.action, to, start) == Some(body) && LS.Extends(idle, start)
        && LS.Extends(start, end2)
      && end2 == LS.RangeEnd(k.cx.locals, item.pattern.right, flag, body) && Within(k, end2) && Within(k, start)
    requires later == LS.Close(end, end, end2) && Within(k, later) && Within(k, t.em) && At(k, idle, w, c)
    requires Addresses(k, flag, item.pattern.state, c, below) && below <= idle.nextTemp
    ensures
      var r := Eval(k.cx, item.pattern.left, w);
      var result := if k.cx.ops.Truthy(r.value)
        then EndRange(k.cx, item.pattern.right, item.pattern.state, ExecAction(k.cx, item.action, r.world, fuel))
        else Done(Normal, r.world);
      Ran(k, to, idle, later, result, fuel, c, n, c')
  {
    hide Step, Related, Run, LS.Extends, Find, Within, Reaches, At, Keeps, Setting.Good, LS.Condition, ConditionJoins;
    hide Eval, Write, LS.RangeEnd;
    hide ExecAction, EndRange, LS.ActionOrDefault, Goes, Placed, ActionJoins, Read, Ran;
    var p, m := item.pattern, t.em.nextLabel;
    var tested := Eval(k.cx, p.left, w);
    var ready := t.em.Labels(1);
    var start := LS.Fork(t.operand, m, end, ready);
    var last := end2.Put(Br(end));
    var b := k.cx.ops.Truthy(tested.value);
    var n1, c1 := SimCondition(k, p.left, idle, w, c);
    Counted(k, t.em, 1, 0, tested.world, c1);
    Uncounted(k, t.em, 1, 0);
    var c2 := SimFork(k, t.operand, b, m, end, ready, last, tested.world, c1);
    Then(k, idle, c, n1, c1, t.em, 1, c2);
    if b {
      var r := EndRange(k.cx, p.right, p.state, ExecAction(k.cx, item.action, tested.world, fuel));
      StillAddresses(k, flag, p.state, c, c2, below, idle.nextTemp);
      Grows(idle, start, end2);
      var n3, c3 := SimRangeAction(k, item, to, flag, start, body, tested.world, c2, below, fuel);
      var n4, c4 := SimClose(k, to, start, end2, end, end, last, later, r, fuel, c2, n3, c3);
      ThenRan(k, to, idle, start, later, r, fuel, c, n1 + 1, c2, fuel, n4, c4);
      n, c' := n1 + 1 + n4, c4;
    } else {
      n, c' := n1 + 1, c2;
      Finished(k, to, idle, later, tested.world, fuel, c, n, c');
    }
  }

  lemma SimRange(k: Setting, item: RecordItem, to: LS.Targets, em: Emitter, later: Emitter,
                 w: World, c: Config, fuel: nat)
    returns (n: nat, c': Config)
    requires item.pattern.Range? && k.Good() && ItemJoins(item) && Placed(k, to)
      && LS.LowerRange(k.cx.locals, item, to, em) == Some(later)
    requires Within(k, later) && At(k, em, w, c)
    ensures Ran(k, to, em, later, ExecItem(k.cx, item, w, fuel), fuel, c, n, c')
  {
    hide Step, Related, Run, LS.Extends, Find, Within, Reaches, At, Keeps, Setting.Good, LS.Condition, ConditionJoins;
    hide Eval, Write, LS.RangeEnd;
    hide ExecAction, EndRange, LS.ActionOrDefault, Goes, Placed, ActionJoins, Read, LS.VariableAddress, LS.RangeFlag;
    var p := item.pattern;
    var flag := LS.VariableAddress(k.cx.locals, p.state, em);
    var test := LS.RangeFlag(flag);
    var m := test.em.nextLabel;
    var ready := test.em.Labels(3);
    var fork := LS.Fork(test.operand, m, m + 1, ready);
    var body := LS.ActionOrDefault(k.cx.locals, item.action, to, fork).value;
    var end1 := LS.RangeEnd(k.cx.locals, p.right, flag.address, body);
    var idle := LS.Close(m + 2, m + 1, end1);
    var t := LS.Condition(k.cx.locals, p.left, idle);
    var m2 := t.em.nextLabel;
    var ready2 := t.em.Labels(1);
    var start := LS.Fork(t.operand, m2, m + 2, ready2);
    var body2 := LS.ActionOrDefault(k.cx.locals, item.action, to, start).value;
    var end2 := LS.RangeEnd(k.cx.locals, p.right, flag.address, body2);
    var w1, last := NoteRead(p.state, w), end2.Put(Br(m + 2));
    RangeParts(k, test.em, test.operand, ready, fork, body, end1, idle, t.em, t.operand,
               ready2, start, body2, end2, m, m2);
    var n1, c1 := SimFlag(k, p.state, em, w, c);
    Watch(k, test.em, w, w1, c1);
    Counted(k, test.em, 3, 0, w1, c1);
    var b := k.cx.ops.Truthy(Read(k.cx, p.state, w));
    var c2 := SimFork(k, test.operand, b, m, m + 1, ready, end1.Put(Br(m + 2)), w1, c1);
    Then(k, em, c, n1, c1, test.em, 1, c2);
    Grows(em, test.em, fork);
    Grows(em, fork, idle);
    SelfExtends(test.em);
    Grows(flag.em, test.em, test.em);
    StillAddresses(k, flag.address, p.state, c1, c2, flag.em.nextTemp, test.em.nextTemp);
    if b {
      var r := EndRange(k.cx, p.right, p.state, ExecAction(k.cx, item.action, w1, fuel));
      Grows(flag.em, test.em, fork);
      var n3, c3 := SimRangeAction(k, item, to, flag.address, fork, body, w1, c2, flag.em.nextTemp, fuel);
      var n4, c4 := SimClose(k, to, fork, end1, m + 2, m + 1, last, later, r, fuel, c2, n3, c3);
      ThenRan(k, to, em, fork, later, r, fuel, c, n1 + 1, c2, fuel, n4, c4);
      n, c' := n1 + 1 + n4, c4;
    } else {
      n, c' := SimRangeIdle(k, item, to, flag.address, idle, t, m + 2, body2, end2,
                            later, w1, c2, flag.em.nextTemp, fuel);
      ThenRan(k, to, em, idle, later, ExecItem(k.cx, item, w, fuel), fuel, c, n1 + 1, c2, fuel, n, c');
      n := n1 + 1 + n;
    }
  }

  lemma SimItem(k: Setting, item: RecordItem, to: LS.Targets, em: Emitter, later: Emitter,
                w: World, c: Config, fuel: nat)
    returns (n: nat, c': Config)
    requires k.Good() && ItemJoins(item) && Placed(k, to) && LS.LowerItem(k.cx.locals, item, to, em) == Some(later)
    requires Within(k, later) && At(k, em, w, c)
    ensures Ran(k, to, em, later, ExecItem(k.cx, item, w, fuel), fuel, c, n, c')
  {
    hide Step, Related, Run, LS.Extends, Find, Within, Reaches, At, Keeps, Setting.Good, LS.Condition, ConditionJoins;
    hide Eval, LS.RangeEnd;
    hide ExecAction, EndRange, LS.ActionOrDefault, Goes, Placed, ActionJoins, Read, LS.LowerWhen, LS.LowerRange, Ran;
    match item.pattern
    case Always => n, c' := SimActionOrDefault(k, item.action, to, em, later, w, c, fuel);
    case When(_) => n, c' := SimWhen(k, item, to, em, later, w, c, fuel);
    case Range(_, _, _) => n, c' := SimRange(k, item, to, em, later, w, c, fuel);
  }

  lemma {:induction false} SimActions(k: Setting, actions: seq<Action>, to: LS.Targets, em: Emitter, later: Emitter,
                                      w: World, c: Config, fuel: nat)
    returns (n: nat, c': Config)
    requires k.Good() && (forall a :: a in actions ==> ActionJoins(Some(a))) && Placed(k, to)
    requires LS.LowerActions(k.cx.locals, actions, to, em) == Some(later) && Within(k, later) && At(k, em, w, c)
    ensures Ran(k, to, em, later, ExecActions(k.cx, actions, w, fuel), fuel, c, n, c')
    decreases actions
  {
    hide Step, Related, Run, LS.Extends, Find, Within, Reaches, At, Keeps, Setting.Good, LS.LowerAction, Placed, Goes;
    hide ActionJoins, ExecAll;
    if actions == [] {
      n, c' := 0, c;
      Begun(k, em, w, c);
      Finished(k, to, em, later, w, fuel, c, n, c');
    } else {
      var mid := LS.LowerAction(k.cx.locals, actions[0], to, em).value;
      var first := ExecAll(k.cx, actions[0], w, fuel);
      Earlier(k, mid, later);
      var n1, c1 := SimAction(k, actions[0], to, em, mid, w, c, fuel);
      if first.Done? && first.outcome.Normal? {
        Arrived(k, to, em, mid, first, fuel, c, n1, c1);
        var n2, c2 := SimActions(k, actions[1..], to, mid, later, first.world, c1, fuel);
        ThenRan(k, to, em, mid, later, ExecActions(k.cx, actions[1..], first.world, fuel),
                fuel, c, n1, c1, fuel, n2, c2);
        n, c' := n1 + n2, c2;
      } else {
        n, c' := n1, c1;
        Elsewhere(k, to, em, mid, later, first, fuel, c, n, c');
      }
    }
  }

  lemma {:induction false} SimItems(k: Setting, items: seq<RecordItem>, to: LS.Targets, em: Emitter, later: Emitter,
                                    w: World, c: Config, fuel: nat)
    returns (n: nat, c': Config)
    requires k.Good() && (forall i :: i in items ==> ItemJoins(i)) && Placed(k, to)
    requires LS.LowerItems(k.cx.locals, items, to, em) == Some(later) && Within(k, later) && At(k, em, w, c)
    ensures Ran(k, to, em, later, ExecItems(k.cx, items, w, fuel), fuel, c, n, c')
    decreases items
  {
    hide Step, Related, Run, LS.Extends, Find, Within, Reaches, At, Keeps, Setting.Good, LS.LowerItem, Placed, Goes;
    hide ItemJoins, ExecItem;
    if items == [] {
      n, c' := 0, c;
      Begun(k, em, w, c);
      Finished(k, to, em, later, w, fuel, c, n, c');
    } else {
      var mid := LS.LowerItem(k.cx.locals, items[0], to, em).value;
      var first := ExecItem(k.cx, items[0], w, fuel);
      Earlier(k, mid, later);
      var n1, c1 := SimItem(k, items[0], to, em, mid, w, c, fuel);
      if first.Done? && first.outcome.Normal? {
        Arrived(k, to, em, mid, first, fuel, c, n1, c1);
        var n2, c2 := SimItems(k, items[1..], to, mid, later, first.world, c1, fuel);
        ThenRan(k, to, em, mid, later, ExecItems(k.cx, items[1..], first.world, fuel), fuel, c, n1, c1, fuel, n2, c2);
        n, c' := n1 + n2, c2;
      } else {
        n, c' := n1, c1;
        Elsewhere(k, to, em, mid, later, first, fuel, c, n, c');
      }
    }
  }
}

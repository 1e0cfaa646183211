/** Programs the analysis is wrong about. Each breaks one rule of the orderly programs, and each
    prints something else, or exits with something else, because of where a variable is kept. */
module ResidencyGaps {
  import opened Options
  import opened Syntax
  import opened Meaning
  import opened Residency
  import opened ResidencySound
  import opened Storage

  const X := Name("x")

  const SETS := AssignStmt("x", Plain, Number(ONE))

  /** A record action that runs something, prints `y`, and leaves one in `x`. */
  function Showing(gap: Stmt, y: string): Action {
    [gap, Print([Name(y)]), SETS]
  }

  function RecordProgram(action: Action): Program {
    Program([], [RecordItem(Always, Some(action))], [], [])
  }

  lemma NothingElse(a: Analysis, definite: set<string>)
    ensures Then(Nothing(definite), a) == a && Then(a, Nothing(a.assignedAfter)) == a
  {
  }

  /** What the classification needs to know about the one action of a program. */
  lemma OneAction(action: Action)
    requires
      var a := AnalyzeStmts({"x"}, action, {});
      a.assignedNames == {"x"} && a.readBefore == {}
    ensures forall r :: Classifies(RecordProgram(action), {"x"}, r) ==> "x" in r.record
  {
    hide AnalyzeStmts;
    var p := RecordProgram(action);
    var units := Units(p, {"x"});
    assert p.items[1..] == [];
    NothingElse(AnalyzeStmts({"x"}, action, {}), {});
    NothingElse(AnalyzeItem({"x"}, p.items[0], {}), {});
    assert p.items[0].action.value == action;
    assert AnalyzeItem({"x"}, p.items[0], {}) == AnalyzeStmts({"x"}, action, {});
    assert AnalyzeItems({"x"}, p.items, {}) == AnalyzeStmts({"x"}, action, {});
    assert units[0].encountered == {} && units[2].encountered == {} && |units| == 3;
    assert !SharedBy(units, "x");
    assert LocalTo(units, units[1], "x");
  }

  lemma TwoStatements(first: Stmt, second: Stmt, definite: set<string>)
    ensures
      var a := AnalyzeStmt({"x"}, first, definite);
      var b := AnalyzeStmt({"x"}, second, a.assignedAfter);
      AnalyzeStmts({"x"}, [first, second], definite) == Then(a, b)
  {
    assert [first, second][1..] == [second] && [second][1..] == [];
    assert AnalyzeStmts({"x"}, [second], AnalyzeStmt({"x"}, first, definite).assignedAfter)
        == AnalyzeStmt({"x"}, second, AnalyzeStmt({"x"}, first, definite).assignedAfter);
  }

  lemma OneStatement(s: Stmt, definite: set<string>)
    ensures AnalyzeStmts({"x"}, [s], definite) == AnalyzeStmt({"x"}, s, definite)
  {
    assert [s][1..] == [];
  }

  lemma ThreeStatements(first: Stmt, second: Stmt, third: Stmt)
    ensures
      var a := AnalyzeStmt({"x"}, first, {});
      var b := AnalyzeStmt({"x"}, second, a.assignedAfter);
      AnalyzeStmts({"x"}, [first, second, third], {}) == Then(a, Then(b, AnalyzeStmt({"x"}, third, b.assignedAfter)))
  {
    var a := AnalyzeStmt({"x"}, first, {});
    assert [first, second, third][1..] == [second, third];
    TwoStatements(second, third, a.assignedAfter);
  }

  lemma PrintAnalyzed(y: string, definite: set<string>)
    ensures AnalyzeStmt({"x"}, Print([Name(y)]), definite) == ReadName({"x"}, y, definite)
  {
    assert [Name(y)][1..] == [];
    assert AnalyzeExpr({"x"}, Name(y), definite) == ReadName({"x"}, y, definite);
    NothingElse(ReadName({"x"}, y, definite), definite);
    assert AnalyzeAll({"x"}, [Name(y)], definite) == Then(ReadName({"x"}, y, definite), Nothing(definite));
  }

  lemma SetsAnalyzed(definite: set<string>)
    ensures AnalyzeStmt({"x"}, SETS, definite) == AssignName({"x"}, "x", definite, false)
  {
    assert AnalyzeExpr({"x"}, Number(ONE), definite) == Nothing(definite);
    NothingElse(AssignName({"x"}, "x", definite, false), definite);
  }

  /** `x` is local to the record call of such a program. */
  lemma ShowingIsLocal(gap: Stmt, y: string)
    requires
      var a := AnalyzeStmt({"x"}, gap, {});
      a.assignedNames == {"x"} && a.readBefore == {} && (y == "x" ==> "x" in a.assignedAfter)
    ensures forall r :: Classifies(RecordProgram(Showing(gap, y)), {"x"}, r) ==> "x" in r.record
  {
    hide AnalyzeExpr, AnalyzeStmt, AnalyzeStmts, Classifies;
    var definite := AnalyzeStmt({"x"}, gap, {}).assignedAfter;
    ThreeStatements(gap, Print([Name(y)]), SETS);
    PrintAnalyzed(y, definite);
    SetsAnalyzed(definite);
    OneAction(Showing(gap, y));
  }

  // ----- Two records -----

  const SAME: Double -> Double := v => v

  /** What runs first does no output, and leaves in `y` what it makes of `x`. */
  ghost predicate Passes(cx: Context, gap: Stmt, y: string, made: Double -> Double, w: World, fuel: nat) {
    var r := Exec(cx, gap, w, fuel);
    && r.Done? && r.outcome.Normal? && r.world.output == w.output && r.world.exit == w.exit
    && Read(cx, y, r.world) == made(Read(cx, "x", w))
  }

  ghost predicate AlwaysPasses(ops: FloatOps, gap: Stmt, y: string, made: Double -> Double) {
    forall cx: Context, w: World, fuel: nat :: cx.ops == ops && fuel >= 2 ==> Passes(cx, gap, y, made, w, fuel)
  }

  function Shown(v: Double): seq<Event> {
    [PrintedNumber(v), PrintedEnd]
  }

  lemma ActionShows(cx: Context, gap: Stmt, y: string, made: Double -> Double, w: World, fuel: nat)
    requires Passes(cx, gap, y, made, w, fuel)
    ensures
      var r := ExecAll(cx, Showing(gap, y), w, fuel);
      && r.Done? && r.outcome.Normal? && r.world.exit == w.exit
      && r.world.output == w.output + Shown(made(Read(cx, "x", w))) && Read(cx, "x", r.world) == ONE
  {
    var w1 := Exec(cx, gap, w, fuel).world;
    var shown := Emit(PrintedNumber(Read(cx, y, w1)), NoteRead(y, w1));
    var w2 := Emit(PrintedEnd, shown);
    var print_ := Print([Name(y)]);
    hide Exec;
    assert PrintAll(cx, [Name(y)], 1, shown) == w2;
    assert PrintAll(cx, [Name(y)], 0, w1) == w2;
    OneByOne(cx, gap, print_, SETS, w, w1, w2, fuel);
    assert w2.output == w.output + Shown(made(Read(cx, "x", w)));
  }

  lemma OneByOne(cx: Context, first: Stmt, second: Stmt, third: Stmt, w: World, w1: World, w2: World, fuel: nat)
    requires Exec(cx, first, w, fuel) == Done(Normal, w1) && second.Print? && second.arguments != []
    requires PrintAll(cx, second.arguments, 0, w1) == w2 && third == SETS
    ensures ExecAll(cx, [first, second, third], w, fuel) == Done(Normal, Write(cx, "x", ONE, w2))
  {
    assert [first, second, third][1..] == [second, third] && [second, third][1..] == [third] && [third][1..] == [];
    assert Exec(cx, second, w1, fuel) == Done(Normal, w2);
    assert Exec(cx, third, w2, fuel) == Done(Normal, Write(cx, "x", ONE, w2));
    assert ExecAll(cx, [third], w2, fuel) == Done(Normal, Write(cx, "x", ONE, w2));
    assert ExecAll(cx, [second, third], w1, fuel) == Done(Normal, Write(cx, "x", ONE, w2));
  }

  /** Two records to read: each call prints a number and its end. */
  ghost predicate TwoRecords(out: Outside) {
    forall taken, output :: out.next(taken, output).Some? <==> |taken| < 2
  }

  const FRESH := Kept(map[], [], None, [])

  /** One record of such a program: it prints what `made` gives for `x`, which is zero in a cell. */
  lemma CallShows(out: Outside, reading: Reading, builtins: BuiltinValues, locals: set<string>, gap: Stmt,
                  y: string, made: Double -> Double,
                  s: Kept, fuel: nat)
    requires AlwaysPasses(out.ops, gap, y, made) && fuel >= 2
    ensures
      var t := Call(out.ops, reading, builtins, locals, Items(RecordProgram(Showing(gap, y)).items), s, fuel);
      && t.Some? && t.value.exit == s.exit && t.value.taken == s.taken
      && t.value.output == s.output + Shown(made(if "x" in locals then ZERO else Lookup(s.persistent, "x")))
      && ("x" !in locals ==> Lookup(t.value.persistent, "x") == ONE)
  {
    var cx, w := Context(out.ops, builtins, locals, reading), World(s.persistent, map[], s.output, s.exit, {}, {});
    var item := RecordProgram(Showing(gap, y)).items[0];
    assert Passes(cx, gap, y, made, w, fuel);
    ActionShows(cx, gap, y, made, w, fuel);
    hide ExecAll;
    assert [item][1..] == [];
    assert ExecItem(cx, item, w, fuel) == ExecAll(cx, Showing(gap, y), w, fuel);
    assert ExecItems(cx, [item], w, fuel) == ExecItem(cx, item, w, fuel);
  }

  /** The program over two records: with `x` in a cell it prints the same twice; otherwise the second
      record shows what the first one left. */
  lemma ProgramShows(out: Outside, reading: Reading, layout: Layout, gap: Stmt, y: string, made: Double -> Double)
    requires AlwaysPasses(out.ops, gap, y, made) && TwoRecords(out)
    ensures
      var r := RunProgram(out, reading, layout, RecordProgram(Showing(gap, y)), FRESH, 4);
      r.Some? && r.value.output == Shown(made(ZERO)) + Shown(made(if "x" in layout.record then ZERO else ONE))
  {
    hide AlwaysPasses, Call, Showing;
    var p := RecordProgram(Showing(gap, y));
    Idle(out, reading, out.atBegin, layout.begin, FRESH);
    var b1 := Next(out, FRESH).value;
    CallShows(out, reading, b1, layout.record, gap, y, made, Taking(FRESH), 4);
    var s1 := Call(out.ops, reading, b1, layout.record, Items(p.items), Taking(FRESH), 4).value;
    var b2 := Next(out, s1).value;
    CallShows(out, reading, b2, layout.record, gap, y, made, Taking(s1), 3);
    var s2 := Call(out.ops, reading, b2, layout.record, Items(p.items), Taking(s1), 3).value;
    assert RecordLoop(out, reading, layout.record, p.items, s2, 2) == Some(s2);
    assert RecordLoop(out, reading, layout.record, p.items, s1, 3) == Some(s2);
    assert RecordLoop(out, reading, layout.record, p.items, FRESH, 4) == Some(s2);
    Idle(out, reading, AtEnd(out, s2), layout.end, s2);
  }

  lemma Idle(out: Outside, reading: Reading, builtins: BuiltinValues, locals: set<string>, s: Kept)
    ensures Call(out.ops, reading, builtins, locals, Actions([]), s, 4) == Some(s)
  {
  }

  /** The layout the analysis finds prints `made` of zero twice; keeping every variable throughout
      prints `made` of one for the second record. */
  ghost predicate Misplaced(out: Outside, reading: Reading, p: Program, made: Double -> Double) {
    forall r :: Classifies(p, {"x"}, r) ==>
      var kept, whole := RunProgram(out, reading, LayoutOf(r), p, FRESH, 4),
          RunProgram(out, reading, NOTHING_LOCAL, p, FRESH, 4);
      && kept.Some? && kept.value.output == Shown(made(ZERO)) + Shown(made(ZERO))
      && whole.Some? && whole.value.output == Shown(made(ZERO)) + Shown(made(ONE))
  }

  lemma IsMisplaced(out: Outside, reading: Reading, gap: Stmt, y: string, made: Double -> Double)
    requires AlwaysPasses(out.ops, gap, y, made) && TwoRecords(out)
    requires
      var a := AnalyzeStmt({"x"}, gap, {});
      a.assignedNames == {"x"} && a.readBefore == {} && (y == "x" ==> "x" in a.assignedAfter)
    ensures Misplaced(out, reading, RecordProgram(Showing(gap, y)), made)
  {
    hide AlwaysPasses, RunProgram, Showing;
    ShowingIsLocal(gap, y);
    ProgramShows(out, reading, NOTHING_LOCAL, gap, y, made);
    forall r | Classifies(RecordProgram(Showing(gap, y)), {"x"}, r)
      ensures
        var kept := RunProgram(out, reading, LayoutOf(r), RecordProgram(Showing(gap, y)), FRESH, 4);
        kept.Some? && kept.value.output == Shown(made(ZERO)) + Shown(made(ZERO))
    {
      ProgramShows(out, reading, LayoutOf(r), gap, y, made);
    }
  }

  // ----- The programs -----

  /** `0 && (x = 0); print x; x = 1`: the analysis takes the first assignment for granted. */
  lemma GuardedAssignment(out: Outside, reading: Reading)
    requires TwoRecords(out) && out.ops.Lawful()
    ensures
      var gap := ExprStmt(And(Number(ZERO), Assign("x", Plain, Number(ZERO))));
      Misplaced(out, reading, RecordProgram(Showing(gap, "x")), SAME)
  {
    var gap := ExprStmt(And(Number(ZERO), Assign("x", Plain, Number(ZERO))));
    assert AnalyzeStmt({"x"}, gap, {}) == Analysis({"x"}, {"x"}, {"x"}, {});
    IsMisplaced(out, reading, gap, "x", SAME);
  }

  function EarlyTest(): Stmt {
    DoWhile(Block([ContinueStmt, SETS]), And(Assign("y", Plain, X), Number(ZERO)))
  }

  /** `do { continue; x = 1 } while ((y = x) && 0); print y; x = 1`: the condition runs without the
      assignment. */
  lemma ContinueInDo(out: Outside, reading: Reading)
    requires TwoRecords(out) && out.ops.Lawful()
    ensures Misplaced(out, reading, RecordProgram(Showing(EarlyTest(), "y")), SAME)
  {
    hide Misplaced, AnalyzeStmt, Passes, EarlyTest;
    EarlyTestAnalyzed();
    forall cx: Context, w: World, fuel: nat | cx.ops == out.ops && fuel >= 2
      ensures Passes(cx, EarlyTest(), "y", SAME, w, fuel)
    {
      EarlyTestRuns(cx, w, fuel);
    }
    IsMisplaced(out, reading, EarlyTest(), "y", SAME);
  }

  lemma EarlyTestAnalyzed()
    ensures var a := AnalyzeStmt({"x"}, EarlyTest(), {}); a.assignedNames == {"x"} && a.readBefore == {}
  {
    hide AnalyzeStmts;
    BodyAnalyzed();
    assert AnalyzeStmt({"x"}, EarlyTest(), {}) == Analysis({}, {"x"}, {"x"}, {});
  }

  lemma EarlyTestRuns(cx: Context, w: World, fuel: nat)
    requires cx.ops.Lawful() && fuel >= 2
    ensures Passes(cx, EarlyTest(), "y", SAME, w, fuel)
  {
    hide ExecAll;
    BodyRuns(cx, w, fuel);
    assert Exec(cx, EarlyTest(), w, fuel) == AfterBody(cx, EarlyTest(), Done(Continued, w), fuel - 1);
  }

  lemma BodyAnalyzed()
    ensures AnalyzeStmt({"x"}, Block([ContinueStmt, SETS]), {}) == Analysis({"x"}, {"x"}, {"x"}, {})
  {
    TwoStatements(ContinueStmt, SETS, {});
  }

  lemma BodyRuns(cx: Context, w: World, fuel: nat)
    ensures Exec(cx, Block([ContinueStmt, SETS]), w, fuel) == Done(Continued, w)
  {
    assert Exec(cx, ContinueStmt, w, fuel) == Done(Continued, w);
    assert ExecAll(cx, [ContinueStmt, SETS], w, fuel) == Done(Continued, w);
  }

  function LateUpdate(): Stmt {
    For([Assign("z", Plain, Number(ONE))], Some(Name("z")), [Assign("y", Plain, X), Assign("z", Plain, Number(ZERO))],
        Block([ContinueStmt, SETS]))
  }

  /** `for (z = 1; z; y = x, z = 0) { continue; x = 1 } print y; x = 1`: the update runs without the
      assignment. */
  lemma ContinueInFor(out: Outside, reading: Reading)
    requires TwoRecords(out) && out.ops.Lawful()
    ensures Misplaced(out, reading, RecordProgram(Showing(LateUpdate(), "y")), SAME)
  {
    hide Misplaced, AnalyzeStmt, Passes;
    LateUpdateAnalyzed();
    forall cx: Context, w: World, fuel: nat | cx.ops == out.ops && fuel >= 2
      ensures Passes(cx, LateUpdate(), "y", SAME, w, fuel)
    {
      LateUpdateRuns(cx, w, fuel);
    }
    IsMisplaced(out, reading, LateUpdate(), "y", SAME);
  }

  lemma LateUpdateAnalyzed()
    ensures var a := AnalyzeStmt({"x"}, LateUpdate(), {}); a.assignedNames == {"x"} && a.readBefore == {}
  {
    hide AnalyzeExpr, AnalyzeStmts, AnalyzeTest, AnalyzeAll;
    var s, T, seen := LateUpdate(), {"x"}, Analysis({"x"}, {"x"}, {"x"}, {});
    BodyAnalyzed();
    HeadAnalyzed();
    UpdateAnalyzed();
    assert AnalyzeTurn(T, s, {}) == Ending({}, Then(Then(Nothing({}), seen), Analysis({"x"}, {"x"}, {}, {})));
  }

  lemma HeadAnalyzed()
    ensures AnalyzeAll({"x"}, LateUpdate().init, {}) == Nothing({})
      && AnalyzeTest({"x"}, LateUpdate().test, {}) == Nothing({})
  {
    hide AnalyzeStmt, AnalyzeStmts;
    assert LateUpdate().init[1..] == [];
  }

  lemma UpdateAnalyzed()
    ensures AnalyzeAll({"x"}, LateUpdate().update, {"x"}) == Analysis({"x"}, {"x"}, {}, {})
  {
    hide AnalyzeStmt, AnalyzeStmts;
    var first, second := LateUpdate().update[0], LateUpdate().update[1];
    assert [first, second][1..] == [second] && [second][1..] == [];
    assert AnalyzeAll({"x"}, [second], {"x"}) == Nothing({"x"});
  }

  lemma LateUpdateRuns(cx: Context, w: World, fuel: nat)
    requires cx.ops.Lawful() && fuel >= 2
    ensures Passes(cx, LateUpdate(), "y", SAME, w, fuel)
  {
    hide EvalAll, Eval, ExecAll;
    var s, w1 := LateUpdate(), Write(cx, "z", ONE, w);
    HeadRuns(cx, w);
    var w2 := NoteRead("z", w1);
    TestRuns(cx, w1);
    var w4 := UpdateRuns(cx, w2);
    TestRuns(cx, w4);
    BodyRuns(cx, w2, fuel);
    assert ExecFor(cx, s, w4, fuel - 1) == Done(Normal, NoteRead("z", w4));
    assert ExecFor(cx, s, w1, fuel) == AfterBody(cx, s, Done(Continued, w2), fuel - 1);
  }

  lemma HeadRuns(cx: Context, w: World)
    ensures EvalAll(cx, LateUpdate().init, w) == Write(cx, "z", ONE, w)
  {
    assert LateUpdate().init[1..] == [];
  }

  lemma TestRuns(cx: Context, w: World)
    ensures Eval(cx, Name("z"), w) == Evaluated(Read(cx, "z", w), NoteRead("z", w))
  {
  }

  lemma UpdateRuns(cx: Context, w: World) returns (later: World)
    ensures later == EvalAll(cx, LateUpdate().update, w)
    ensures later.output == w.output && later.exit == w.exit && Read(cx, "z", later) == ZERO
      && Read(cx, "y", later) == Read(cx, "x", w)
  {
    var first, second := Assign("y", Plain, X), Assign("z", Plain, Number(ZERO));
    assert [first, second][1..] == [second] && [second][1..] == [];
    var w1 := Eval(cx, first, w).world;
    later := Write(cx, "z", ZERO, w1);
    assert EvalAll(cx, [second], w1) == later;
  }

  function SelfUpdate(): Stmt {
    ExprStmt(Assign("x", Compound(Add), Assign("x", Plain, Number(ONE))))
  }

  /** `x += (x = 1); print x; x = 1` as an expression: the old value is loaded first. */
  lemma CompoundOfItself(out: Outside, reading: Reading)
    requires TwoRecords(out)
    ensures Misplaced(out, reading, RecordProgram(Showing(SelfUpdate(), "x")), v => out.ops.add(v, ONE))
  {
    hide Misplaced, AnalyzeStmt, Passes, SelfUpdate;
    SelfUpdateAnalyzed();
    var made: Double -> Double := v => out.ops.add(v, ONE);
    forall cx: Context, w: World, fuel: nat | cx.ops == out.ops && fuel >= 2
      ensures Passes(cx, SelfUpdate(), "x", made, w, fuel)
    {
      SelfUpdateRuns(cx, made, w, fuel);
    }
    IsMisplaced(out, reading, SelfUpdate(), "x", made);
  }

  lemma SelfUpdateAnalyzed()
    ensures AnalyzeStmt({"x"}, SelfUpdate(), {}) == Analysis({"x"}, {"x"}, {"x"}, {})
  {
  }

  lemma SelfUpdateRuns(cx: Context, made: Double -> Double, w: World, fuel: nat)
    requires forall v :: made(v) == cx.ops.add(v, ONE)
    ensures Passes(cx, SelfUpdate(), "x", made, w, fuel)
  {
  }

  /** `BEGIN { x = 1 } END { exit x }`: the analysis does not look at the value of `exit`, so `x`
      is kept in a cell of BEGIN and END reads the state, which was never written. */
  lemma ExitValue(out: Outside, reading: Reading, r: Residency)
    requires Classifies(Program([[AssignStmt("x", Plain, Number(ONE))]], [], [[ExitStmt(Some(X))]], []), {"x"}, r)
    requires out.next([], []) == None
    ensures
      var p := Program([[AssignStmt("x", Plain, Number(ONE))]], [], [[ExitStmt(Some(X))]], []);
      var s := Kept(map[], [], None, []);
      var kept, whole := RunProgram(out, reading, LayoutOf(r), p, s, 0),
          RunProgram(out, reading, NOTHING_LOCAL, p, s, 0);
      kept.Some? && whole.Some? && kept.value.exit == Some(out.ops.status(ZERO))
        && whole.value.exit == Some(out.ops.status(ONE))
  {
    var a, e := AssignStmt("x", Plain, Number(ONE)), ExitStmt(Some(X));
    assert [a][1..] == [] && [e][1..] == [] && [[a]][1..] == [] && [[e]][1..] == [];
    var p := Program([[a]], [], [[e]], []);
    var units := Units(p, {"x"});
    OneStatement(a, {});
    OneStatement(e, {});
    NothingElse(AnalyzeStmts({"x"}, [a], {}), {});
    NothingElse(AnalyzeStmts({"x"}, [e], {}), {});
    assert AnalyzeStmt({"x"}, a, {}) == Analysis({"x"}, {"x"}, {"x"}, {});
    assert p.begin[0] == [a] && p.end[0] == [e] && p.begin[1..] == [] && p.end[1..] == [];
    assert AnalyzeActions({"x"}, p.begin, {}) == AnalyzeStmts({"x"}, [a], {});
    assert AnalyzeActions({"x"}, p.end, {}) == AnalyzeStmts({"x"}, [e], {});
    assert units[0] == Analysis({"x"}, {"x"}, {"x"}, {}) && units[1].encountered == {}
        && units[2] == Nothing({}) && |units| == 3;
    assert !SharedBy(units, "x");
    assert LocalTo(units, units[0], "x");
    assert "x" in r.begin && "x" !in r.end;
    ExitStatus(out, reading, LayoutOf(r), p);
    ExitStatus(out, reading, NOTHING_LOCAL, p);
  }

  /** What `BEGIN { x = 1 } END { exit x }` exits with, wherever `x` is kept. */
  lemma ExitStatus(out: Outside, reading: Reading, layout: Layout, p: Program)
    requires p == Program([[AssignStmt("x", Plain, Number(ONE))]], [], [[ExitStmt(Some(X))]], [])
    requires out.next([], []) == None && "x" !in layout.end
    ensures
      var r := RunProgram(out, reading, layout, p, Kept(map[], [], None, []), 0);
      r.Some? && r.value.exit == Some(out.ops.status(if "x" in layout.begin then ZERO else ONE))
  {
    var a, e := p.begin[0][0], p.end[0][0];
    assert [a][1..] == [] && [e][1..] == [] && p.begin[1..] == [] && p.end[1..] == [];
    var s := Kept(map[], [], None, []);
    var cx, w := Context(out.ops, out.atBegin, layout.begin, reading), World(map[], map[], [], None, {}, {});
    assert ExecAll(cx, [a], w, 0) == Done(Normal, Write(cx, "x", ONE, w));
    assert ExecActions(cx, p.begin, w, 0) == Done(Normal, Write(cx, "x", ONE, w));
    var s1 := Kept(if "x" in layout.begin then map[] else map["x" := ONE], [], None, []);
    assert Call(out.ops, reading, out.atBegin, layout.begin, Actions(p.begin), s, 0) == Some(s1);
    assert RecordLoop(out, reading, layout.record, [], s1, 0) == Some(s1);
    var cx2, w2 := Context(out.ops, AtEnd(out, s1), layout.end, reading),
        World(s1.persistent, map[], [], None, {}, {});
    var v := if "x" in layout.begin then ZERO else ONE;
    assert Eval(cx2, X, w2) == Evaluated(v, NoteRead("x", w2));
    assert ExecAll(cx2, [e], w2, 0) == Done(Left, NoteRead("x", w2).(exit := Some(out.ops.status(v))));
  }
}

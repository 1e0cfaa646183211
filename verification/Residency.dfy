/** Which numeric variables may live in a cell of one generated function: the definite-assignment
    analysis over expressions, statements, actions and record items, and the classification it
    leads to. */
module Residency {
  import opened Options
  import opened Syntax

  /** What the analysis knows after a stretch of program: the names certainly assigned by its
      end, the names it mentions, those it assigns, and those it may read first. */
  datatype Analysis = Analysis(
    assignedAfter: set<string>,
    encountered: set<string>,
    assignedNames: set<string>,
    readBefore: set<string>)

  function Nothing(definite: set<string>): Analysis {
    Analysis(definite, {}, {}, {})
  }

  /** One stretch after another. */
  function Then(first: Analysis, second: Analysis): Analysis {
    Analysis(
      second.assignedAfter,
      first.encountered + second.encountered,
      first.assignedNames + second.assignedNames,
      first.readBefore + second.readBefore)
  }

  function Ending(after: set<string>, r: Analysis): Analysis {
    r.(assignedAfter := after)
  }

  function ReadName(tracked: set<string>, x: string, definite: set<string>): Analysis {
    if x !in tracked then Nothing(definite)
    else Analysis(definite, {x}, {}, if x in definite then {} else {x})
  }

  function AssignName(tracked: set<string>, x: string, definite: set<string>, needsPrior: bool): Analysis {
    if x !in tracked then Nothing(definite)
    else Analysis(definite + {x}, {x}, {x}, if needsPrior && x !in definite then {x} else {})
  }

  // ----- Expressions and statements -----

  function AnalyzeExpr(tracked: set<string>, e: Expr, definite: set<string>): Analysis {
    match e
    case Number(_) => Nothing(definite)
    case Name(x) => ReadName(tracked, x, definite)
    case Builtin(_) => Nothing(definite)
    case Assign(x, aop, right) =>
      var value := AnalyzeExpr(tracked, right, definite);
      Then(value, AssignName(tracked, x, value.assignedAfter, aop.Compound?))
    case Sign(_, operand) => AnalyzeExpr(tracked, operand, definite)
    case Increment(x, _, _) =>
      Then(ReadName(tracked, x, definite), AssignName(tracked, x, definite, false))
    case Arith(_, l, r) =>
      var left := AnalyzeExpr(tracked, l, definite);
      Then(left, AnalyzeExpr(tracked, r, left.assignedAfter))
    case Compare(_, l, r) =>
      var left := AnalyzeExpr(tracked, l, definite);
      Then(left, AnalyzeExpr(tracked, r, left.assignedAfter))
    case And(l, r) =>
      var left := AnalyzeExpr(tracked, l, definite);
      Then(left, AnalyzeExpr(tracked, r, left.assignedAfter))
    case Or(l, r) =>
      var left := AnalyzeExpr(tracked, l, definite);
      Then(left, AnalyzeExpr(tracked, r, left.assignedAfter))
    case Conditional(c, t, f) =>
      var test := AnalyzeExpr(tracked, c, definite);
      var yes := AnalyzeExpr(tracked, t, test.assignedAfter);
      var no := AnalyzeExpr(tracked, f, test.assignedAfter);
      Ending(yes.assignedAfter * no.assignedAfter, Then(Then(test, yes), no))
  }

  function AnalyzeAll(tracked: set<string>, es: seq<Expr>, definite: set<string>): Analysis {
    if es == [] then Nothing(definite) else
    var first := AnalyzeExpr(tracked, es[0], definite);
    Then(first, AnalyzeAll(tracked, es[1..], first.assignedAfter))
  }

  function AnalyzeTest(tracked: set<string>, test: Option<Expr>, definite: set<string>): Analysis {
    if test.None? then Nothing(definite) else AnalyzeExpr(tracked, test.value, definite)
  }

  function AnalyzeStmt(tracked: set<string>, s: Stmt, definite: set<string>): Analysis
    decreases s, 1
  {
    match s
    case AssignStmt(x, aop, e) =>
      var value := AnalyzeExpr(tracked, e, definite);
      Then(value, AssignName(tracked, x, value.assignedAfter, aop.Compound?))
    case ExprStmt(e) => AnalyzeExpr(tracked, e, definite)
    case Print(es) => AnalyzeAll(tracked, es, definite)
    case Block(ss) => AnalyzeStmts(tracked, ss, definite)
    case If(c, t, e) =>
      var test := AnalyzeExpr(tracked, c, definite);
      var yes := AnalyzeStmt(tracked, t, test.assignedAfter);
      if e.None? then Ending(test.assignedAfter * yes.assignedAfter, Then(test, yes)) else
      var no := AnalyzeStmt(tracked, e.value, test.assignedAfter);
      Ending(yes.assignedAfter * no.assignedAfter, Then(Then(test, yes), no))
    case While(c, body) =>
      var test := AnalyzeExpr(tracked, c, definite);
      Ending(test.assignedAfter, Then(test, AnalyzeStmt(tracked, body, test.assignedAfter)))
    case DoWhile(body, c) =>
      var first := AnalyzeStmt(tracked, body, definite);
      Ending(definite, Then(first, AnalyzeExpr(tracked, c, first.assignedAfter)))
    case For(init, test, update, body) =>
      var start := AnalyzeAll(tracked, init, definite);
      Then(start, AnalyzeTurn(tracked, s, start.assignedAfter))
    case BreakStmt => Nothing(definite)
    case ContinueStmt => Nothing(definite)
    case NextStmt => Nothing(definite)
    case NextFileStmt => Nothing(definite)
    case ExitStmt(_) => Nothing(definite)
  }

  /** One turn of a `for` loop; only its condition is sure to run. */
  function AnalyzeTurn(tracked: set<string>, s: Stmt, definite: set<string>): Analysis
    requires s.For?
    decreases s, 0
  {
    var condition := AnalyzeTest(tracked, s.test, definite);
    var turn := AnalyzeStmt(tracked, s.body, condition.assignedAfter);
    Ending(condition.assignedAfter, Then(Then(condition, turn), AnalyzeAll(tracked, s.update, turn.assignedAfter)))
  }

  function AnalyzeStmts(tracked: set<string>, ss: seq<Stmt>, definite: set<string>): Analysis
    decreases ss, 0
  {
    if ss == [] then Nothing(definite) else
    var first := AnalyzeStmt(tracked, ss[0], definite);
    Then(first, AnalyzeStmts(tracked, ss[1..], first.assignedAfter))
  }

  // ----- Units -----

  function AnalyzeActions(tracked: set<string>, actions: seq<Action>, definite: set<string>): Analysis {
    if actions == [] then Nothing(definite) else
    var first := AnalyzeStmts(tracked, actions[0], definite);
    Then(first, AnalyzeActions(tracked, actions[1..], first.assignedAfter))
  }

  function AnalyzePattern(tracked: set<string>, pattern: Pattern, definite: set<string>): Analysis {
    match pattern
    case Always => Nothing(definite)
    case When(test) => AnalyzeExpr(tracked, test, definite)
    case Range(left, right, _) =>
      Ending(definite, Then(AnalyzeExpr(tracked, left, definite), AnalyzeExpr(tracked, right, definite)))
  }

  /** An action behind a pattern may not run. */
  function AnalyzeItem(tracked: set<string>, item: RecordItem, definite: set<string>): Analysis {
    var test := AnalyzePattern(tracked, item.pattern, definite);
    if item.action.None? then test else
    var action := AnalyzeStmts(tracked, item.action.value, test.assignedAfter);
    Ending(if item.pattern.Always? then action.assignedAfter
           else test.assignedAfter * action.assignedAfter, Then(test, action))
  }

  function AnalyzeItems(tracked: set<string>, items: seq<RecordItem>, definite: set<string>): Analysis {
    if items == [] then Nothing(definite) else
    var first := AnalyzeItem(tracked, items[0], definite);
    Then(first, AnalyzeItems(tracked, items[1..], first.assignedAfter))
  }

  /** Parameters hide variables of the same name. */
  function AnalyzeFunction(tracked: set<string>, f: Function): Analysis {
    AnalyzeStmts(tracked - f.params, f.body, {})
  }

  // ----- Classification -----

  datatype Residency = Residency(begin: set<string>, record: set<string>, end: set<string>, stateBacked: set<string>)
  {
    function All(): set<string> {
      begin + record + end
    }
  }

  /** The names more than one unit mentions. */
  ghost predicate SharedBy(units: seq<Analysis>, x: string) {
    exists i, j :: 0 <= i < j < |units| && x in units[i].encountered && x in units[j].encountered
  }

  ghost predicate LocalTo(units: seq<Analysis>, unit: Analysis, x: string) {
    x in unit.assignedNames && !SharedBy(units, x) && x !in unit.readBefore
  }

  function Units(p: Program, tracked: set<string>): (units: seq<Analysis>)
    ensures |units| == 3 + |p.functions|
  {
    [AnalyzeActions(tracked, p.begin, {}), AnalyzeItems(tracked, p.items, {}), AnalyzeActions(tracked, p.end, {})]
    + FunctionUnits(tracked, p.functions)
  }

  function FunctionUnits(tracked: set<string>, functions: seq<Function>): (units: seq<Analysis>)
    ensures |units| == |functions|
  {
    if functions == [] then [] else [AnalyzeFunction(tracked, functions[0])] + FunctionUnits(tracked, functions[1..])
  }

  /** The names the analysis is about: numeric scalars other than the runtime's own. */
  predicate RangeName(x: string) {
    "__range." <= x
  }

  ghost predicate Classifies(p: Program, tracked: set<string>, r: Residency) {
    var units := Units(p, tracked);
    && (forall x :: x in r.begin <==> LocalTo(units, units[0], x))
    && (forall x :: x in r.record <==> LocalTo(units, units[1], x))
    && (forall x :: x in r.end <==> LocalTo(units, units[2], x))
    && r.stateBacked == tracked - r.All()
  }

  lemma ThenThen(a: Analysis, b: Analysis, c: Analysis)
    ensures Then(Then(a, b), c) == Then(a, Then(b, c))
  {
  }

  // ----- The loops of the analysis -----

  /** Several results in a row: the names they mention, assign and read first, put together. */
  method CombineResults(assignedAfter: set<string>, results: seq<Analysis>) returns (r: Analysis)
    ensures r == Ending(assignedAfter, AllThen(results))
  {
    var encountered, definite, readBefore := {}, {}, {};
    for i := 0 to |results|
      invariant Analysis(assignedAfter, encountered, definite, readBefore)
        == Ending(assignedAfter, AllThen(results[..i]))
    {
      assert results[..i + 1][..i] == results[..i];
      encountered := encountered + results[i].encountered;
      definite := definite + results[i].assignedNames;
      readBefore := readBefore + results[i].readBefore;
    }
    assert results[..|results|] == results;
    r := Analysis(assignedAfter, encountered, definite, readBefore);
  }

  function AllThen(results: seq<Analysis>): Analysis {
    if results == [] then Nothing({}) else Then(AllThen(results[..|results| - 1]), results[|results| - 1])
  }

  lemma AllThenNext(results: seq<Analysis>, r: Analysis)
    ensures AllThen(results + [r]) == Then(AllThen(results), r)
  {
    assert (results + [r])[..|results|] == results;
  }

  method AnalyzeStatementSequence(tracked: set<string>, ss: seq<Stmt>, definite: set<string>) returns (r: Analysis)
    ensures r == AnalyzeStmts(tracked, ss, definite)
  {
    hide AnalyzeStmt, AnalyzeExpr;
    var current, results := definite, [];
    for i := 0 to |ss|
      invariant Then(Ending(current, AllThen(results)), AnalyzeStmts(tracked, ss[i..], current))
        == AnalyzeStmts(tracked, ss, definite)
    {
      assert ss[i..][1..] == ss[i + 1..];
      var result := AnalyzeStmt(tracked, ss[i], current);
      AllThenNext(results, result);
      results := results + [result];
      current := result.assignedAfter;
    }
    r := CombineResults(current, results);
  }

  method AnalyzeActionSequence(tracked: set<string>, actions: seq<Action>) returns (r: Analysis)
    ensures r == AnalyzeActions(tracked, actions, {})
  {
    hide AnalyzeStmts, AnalyzeExpr;
    var current, results := {}, [];
    for i := 0 to |actions|
      invariant Then(Ending(current, AllThen(results)), AnalyzeActions(tracked, actions[i..], current))
        == AnalyzeActions(tracked, actions, {})
    {
      assert actions[i..][1..] == actions[i + 1..];
      var result := AnalyzeStatementSequence(tracked, actions[i], current);
      AllThenNext(results, result);
      results := results + [result];
      current := result.assignedAfter;
    }
    r := CombineResults(current, results);
  }

  method AnalyzeRecordItems(tracked: set<string>, items: seq<RecordItem>) returns (r: Analysis)
    ensures r == AnalyzeItems(tracked, items, {})
  {
    hide AnalyzeStmts, AnalyzeExpr;
    var current, results := {}, [];
    for i := 0 to |items|
      invariant Then(Ending(current, AllThen(results)), AnalyzeItems(tracked, items[i..], current))
        == AnalyzeItems(tracked, items, {})
    {
      assert items[i..][1..] == items[i + 1..];
      ghost var before, item := AllThen(results), AnalyzeItem(tracked, items[i], current);
      ThenThen(Ending(current, before), item, AnalyzeItems(tracked, items[i + 1..], item.assignedAfter));
      if items[i].pattern.Always? {
        var result := Nothing(current);
        if items[i].action.Some? {
          result := AnalyzeStatementSequence(tracked, items[i].action.value, current);
        }
        AllThenNext(results, result);
        results := results + [result];
        current := result.assignedAfter;
      } else {
        var test := AnalyzePattern(tracked, items[i].pattern, current);
        AllThenNext(results, test);
        results := results + [test];
        current := test.assignedAfter;
        if items[i].action.Some? {
          var result := AnalyzeStatementSequence(tracked, items[i].action.value, current);
          ThenThen(before, test, result);
          AllThenNext(results, result);
          results := results + [result];
          current := current * result.assignedAfter;
        }
      }
      assert Ending({}, AllThen(results)) == Ending({}, Then(before, item)) && current == item.assignedAfter;
    }
    r := CombineResults(current, results);
  }

  /** The units up to `n` that mention each name. */
  ghost predicate Notes(units: seq<Analysis>, n: nat, usage: map<string, set<nat>>)
    requires n <= |units|
  {
    && (forall x :: x in usage ==> usage[x] != {} && forall u :: u in usage[x] ==> u < n && x in units[u].encountered)
    && (forall x, u :: 0 <= u < n && x in units[u].encountered ==> x in usage && u in usage[x])
  }

  method NoteSummaries(units: seq<Analysis>) returns (usage: map<string, set<nat>>)
    ensures Notes(units, |units|, usage)
  {
    usage := map[];
    for i := 0 to |units|
      invariant Notes(units, i, usage)
    {
      usage := map x | x in usage.Keys + units[i].encountered ::
        (if x in usage then usage[x] else {}) + (if x in units[i].encountered then {i} else {});
    }
  }

  method Classify(p: Program, tracked: set<string>) returns (r: Residency)
    ensures Classifies(p, tracked, r)
  {
    var begin := AnalyzeActionSequence(tracked, p.begin);
    var record := AnalyzeRecordItems(tracked, p.items);
    var end := AnalyzeActionSequence(tracked, p.end);
    var units := [begin, record, end] + FunctionUnits(tracked, p.functions);
    var usage := NoteSummaries(units);
    var shared := set x | x in usage && |usage[x]| > 1;
    forall x
      ensures x in shared <==> SharedBy(units, x)
    {
      SharedIsUsedTwice(units, usage, x);
    }
    var beginLocal := NamesFrom(begin, shared);
    var recordLocal := NamesFrom(record, shared);
    var endLocal := NamesFrom(end, shared);
    r := Residency(beginLocal, recordLocal, endLocal, tracked - (beginLocal + recordLocal + endLocal));
  }

  function NamesFrom(unit: Analysis, shared: set<string>): set<string> {
    set x | x in unit.assignedNames && x !in shared && x !in unit.readBefore
  }

  lemma SharedIsUsedTwice(units: seq<Analysis>, usage: map<string, set<nat>>, x: string)
    requires Notes(units, |units|, usage)
    ensures x in usage && |usage[x]| > 1 <==> SharedBy(units, x)
  {
    if x in usage && |usage[x]| > 1 {
      var i :| i in usage[x];
      assert |usage[x] - {i}| > 0;
      var j :| j in usage[x] - {i};
      var low, high := if i < j then i else j, if i < j then j else i;
      assert low in usage[x] && high in usage[x];
      assert low < high && x in units[low].encountered && x in units[high].encountered;
    }
    if SharedBy(units, x) {
      var i, j :| 0 <= i < j < |units| && x in units[i].encountered && x in units[j].encountered;
      assert x in usage && i in usage[x] && j in usage[x];
      assert |usage[x]| == |usage[x] - {i} - {j}| + 2;
    }
  }
}

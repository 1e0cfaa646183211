/** The analysis is exact on what it looks at: the orders in which a run may read and write variables
    when every test can go either way and every loop can turn any number of times. */
module ResidencyPaths {
  import opened Options
  import opened Syntax
  import opened Residency
  import Storage

  datatype Touch = Reads(name: string) | Writes(name: string)

  type Path = seq<Touch>

  // ----- Sets of paths -----

  /** A path of the first and then one of the second. */
  ghost function Cat(a: iset<Path>, b: iset<Path>): iset<Path> {
    iset p, q | p in a && q in b :: p + q
  }

  ghost function Times(a: iset<Path>, n: nat): iset<Path> {
    if n == 0 then iset{[]} else Cat(a, Times(a, n - 1))
  }

  /** Any number of turns, none included. */
  ghost function Star(a: iset<Path>): iset<Path> {
    iset n: nat, p | p in Times(a, n) :: p
  }

  const NOTHING: iset<Path> := iset{[]}

  // ----- The paths of a program -----

  ghost function ExprPaths(e: Expr): iset<Path> {
    match e
    case Number(_) => NOTHING
    case Name(x) => iset{[Reads(x)]}
    case Builtin(_) => NOTHING
    case Assign(x, aop, right) => Cat(ExprPaths(right), iset{Stores(x, aop)})
    case Sign(_, operand) => ExprPaths(operand)
    case Increment(x, _, _) => iset{[Reads(x), Writes(x)]}
    case Arith(_, l, r) => Cat(ExprPaths(l), ExprPaths(r))
    case Compare(_, l, r) => Cat(ExprPaths(l), ExprPaths(r))
    // The analysis takes both operands to be evaluated.
    case And(l, r) => Cat(ExprPaths(l), ExprPaths(r))
    case Or(l, r) => Cat(ExprPaths(l), ExprPaths(r))
    case Conditional(c, t, f) => Cat(ExprPaths(c), ExprPaths(t) + ExprPaths(f))
  }

  /** An assignment, once its right side has been evaluated. */
  function Stores(x: string, aop: AssignOp): Path {
    if aop.Plain? then [Writes(x)] else [Reads(x), Writes(x)]
  }

  ghost function AllPaths(es: seq<Expr>): iset<Path> {
    if es == [] then NOTHING else Cat(ExprPaths(es[0]), AllPaths(es[1..]))
  }

  ghost function TestPaths(test: Option<Expr>): iset<Path> {
    if test.None? then NOTHING else ExprPaths(test.value)
  }

  /** To the analysis a statement that leaves does nothing, and a `do` loop may not run at all. */
  ghost function StmtPaths(s: Stmt): iset<Path>
    decreases s
  {
    match s
    case AssignStmt(x, aop, value) => Cat(ExprPaths(value), iset{Stores(x, aop)})
    case ExprStmt(e) => ExprPaths(e)
    case Print(es) => AllPaths(es)
    case Block(ss) => StmtsPaths(ss)
    case If(c, t, e) => Cat(ExprPaths(c), StmtPaths(t) + (if e.None? then NOTHING else StmtPaths(e.value)))
    case While(c, body) => Cat(ExprPaths(c), Star(Cat(StmtPaths(body), ExprPaths(c))))
    case DoWhile(body, c) => Star(Cat(StmtPaths(body), ExprPaths(c)))
    case For(init, test, update, body) =>
      Cat(AllPaths(init), Cat(TestPaths(test), Star(Cat(Cat(StmtPaths(body), AllPaths(update)), TestPaths(test)))))
    case BreakStmt => NOTHING
    case ContinueStmt => NOTHING
    case NextStmt => NOTHING
    case NextFileStmt => NOTHING
    case ExitStmt(_) => NOTHING
  }

  ghost function StmtsPaths(ss: seq<Stmt>): iset<Path>
    decreases ss
  {
    if ss == [] then NOTHING else Cat(StmtPaths(ss[0]), StmtsPaths(ss[1..]))
  }

  ghost function ActionsPaths(actions: seq<Action>): iset<Path> {
    if actions == [] then NOTHING else Cat(StmtsPaths(actions[0]), ActionsPaths(actions[1..]))
  }

  /** Of a range either pattern may be read, or neither. */
  ghost function PatternPaths(pattern: Pattern): iset<Path> {
    match pattern
    case Always => NOTHING
    case When(test) => ExprPaths(test)
    case Range(left, right, _) => NOTHING + (ExprPaths(left) + ExprPaths(right))
  }

  ghost function ItemPaths(item: RecordItem): iset<Path> {
    if item.action.None? then PatternPaths(item.pattern)
    else if item.pattern.Always? then StmtsPaths(item.action.value)
    else Cat(PatternPaths(item.pattern), NOTHING + StmtsPaths(item.action.value))
  }

  ghost function ItemsPaths(items: seq<RecordItem>): iset<Path> {
    if items == [] then NOTHING else Cat(ItemPaths(items[0]), ItemsPaths(items[1..]))
  }

  // ----- What happens on paths -----

  /** The path reads `x` before it has written it. */
  ghost predicate EarlyIn(p: Path, x: string) {
    exists i :: 0 <= i < |p| && p[i] == Reads(x) && Writes(x) !in p[..i]
  }

  ghost predicate Early(a: iset<Path>, x: string) {
    exists p :: p in a && EarlyIn(p, x)
  }

  /** Every path writes `x`. */
  ghost predicate Sure(a: iset<Path>, x: string) {
    forall p :: p in a ==> Writes(x) in p
  }

  ghost predicate OnSome(a: iset<Path>, t: Touch) {
    exists p :: p in a && t in p
  }

  /** The result says just what happens on the paths, where the names in `definite` have been written. */
  ghost predicate Exactly(tracked: set<string>, definite: set<string>, r: Analysis, a: iset<Path>) {
    && (exists p :: p in a)
    && (forall x :: x in r.readBefore <==> x in tracked && x !in definite && Early(a, x))
    && (forall x :: x in r.assignedAfter <==> x in definite || (x in tracked && Sure(a, x)))
    && (forall x :: x in r.assignedNames <==> x in tracked && OnSome(a, Writes(x)))
    && (forall x :: x in r.encountered <==> x in tracked && (OnSome(a, Reads(x)) || OnSome(a, Writes(x))))
  }

  lemma EarlyAppend(p: Path, q: Path, x: string)
    ensures EarlyIn(p + q, x) <==> EarlyIn(p, x) || (Writes(x) !in p && EarlyIn(q, x))
  {
    if i :| 0 <= i < |p + q| && (p + q)[i] == Reads(x) && Writes(x) !in (p + q)[..i] {
      if i < |p| {
        assert (p + q)[..i] == p[..i];
      } else {
        assert (p + q)[..i] == p + q[..i - |p|];
        assert q[i - |p|] == Reads(x);
      }
    }
    if i :| 0 <= i < |p| && p[i] == Reads(x) && Writes(x) !in p[..i] {
      assert (p + q)[..i] == p[..i] && (p + q)[i] == Reads(x);
    }
    if Writes(x) !in p && EarlyIn(q, x) {
      var i :| 0 <= i < |q| && q[i] == Reads(x) && Writes(x) !in q[..i];
      assert (p + q)[..|p| + i] == p + q[..i] && (p + q)[|p| + i] == Reads(x);
    }
  }

  lemma CatHas(a: iset<Path>, b: iset<Path>, p: Path, q: Path)
    requires p in a && q in b
    ensures p + q in Cat(a, b)
  {
  }

  lemma CatIs(a: iset<Path>, b: iset<Path>, r: Path) returns (p: Path, q: Path)
    requires r in Cat(a, b)
    ensures p in a && q in b && r == p + q
  {
    p, q :| p in a && q in b && r == p + q;
  }

  lemma EarlyCat(a: iset<Path>, b: iset<Path>, x: string)
    requires (exists p :: p in a) && (exists q :: q in b)
    ensures Early(Cat(a, b), x) <==> Early(a, x) || (!Sure(a, x) && Early(b, x))
  {
    hide Cat, EarlyIn;
    if Early(Cat(a, b), x) {
      var r :| r in Cat(a, b) && EarlyIn(r, x);
      var p, q := CatIs(a, b, r);
      EarlyAppend(p, q, x);
    }
    if Early(a, x) {
      var p :| p in a && EarlyIn(p, x);
      var q :| q in b;
      EarlyAppend(p, q, x);
      CatHas(a, b, p, q);
    }
    if !Sure(a, x) && Early(b, x) {
      var p :| p in a && Writes(x) !in p;
      var q :| q in b && EarlyIn(q, x);
      EarlyAppend(p, q, x);
      CatHas(a, b, p, q);
    }
  }

  lemma SureCat(a: iset<Path>, b: iset<Path>, x: string)
    requires (exists p :: p in a) && (exists q :: q in b)
    ensures Sure(Cat(a, b), x) <==> Sure(a, x) || Sure(b, x)
    ensures exists r :: r in Cat(a, b)
  {
    hide Cat;
    forall r | r in Cat(a, b) && (Sure(a, x) || Sure(b, x))
      ensures Writes(x) in r
    {
      var p, q := CatIs(a, b, r);
    }
    var p :| p in a && (Sure(a, x) || Writes(x) !in p);
    var q :| q in b && (Sure(b, x) || Writes(x) !in q);
    CatHas(a, b, p, q);
  }

  lemma SomeCat(a: iset<Path>, b: iset<Path>, t: Touch)
    requires (exists p :: p in a) && (exists q :: q in b)
    ensures OnSome(Cat(a, b), t) <==> OnSome(a, t) || OnSome(b, t)
  {
    hide Cat;
    if OnSome(Cat(a, b), t) {
      var r :| r in Cat(a, b) && t in r;
      var p, q := CatIs(a, b, r);
    }
    if OnSome(a, t) {
      var p :| p in a && t in p;
      var q :| q in b;
      CatHas(a, b, p, q);
    }
    if OnSome(b, t) {
      var p :| p in a;
      var q :| q in b && t in q;
      CatHas(a, b, p, q);
    }
  }

  // ----- Any number of turns -----

  lemma {:induction false} TimesOnly(a: iset<Path>, n: nat, x: string)
    requires exists p :: p in a
    ensures exists p :: p in Times(a, n)
    ensures Early(Times(a, n), x) ==> Early(a, x)
    ensures OnSome(Times(a, n), Reads(x)) ==> OnSome(a, Reads(x))
    ensures OnSome(Times(a, n), Writes(x)) ==> OnSome(a, Writes(x))
    decreases n
  {
    hide Cat;
    if n == 0 {
      assert [] in Times(a, 0);
    } else {
      TimesOnly(a, n - 1, x);
      EarlyCat(a, Times(a, n - 1), x);
      SureCat(a, Times(a, n - 1), x);
      SomeCat(a, Times(a, n - 1), Reads(x));
      SomeCat(a, Times(a, n - 1), Writes(x));
      assert Times(a, n) == Cat(a, Times(a, n - 1));
    }
  }

  lemma OneTurn(a: iset<Path>, p: Path)
    requires p in a
    ensures p in Star(a) && [] in Star(a)
  {
    hide Cat;
    assert [] in Times(a, 0);
    CatHas(a, Times(a, 0), p, []);
    assert p + [] == p && p in Times(a, 1);
  }

  lemma StarIs(a: iset<Path>, x: string)
    requires exists p :: p in a
    ensures [] in Star(a) && !Sure(Star(a), x)
    ensures Early(Star(a), x) <==> Early(a, x)
    ensures OnSome(Star(a), Reads(x)) <==> OnSome(a, Reads(x))
    ensures OnSome(Star(a), Writes(x)) <==> OnSome(a, Writes(x))
  {
    hide Times, EarlyIn;
    forall p | p in a
      ensures p in Star(a) && [] in Star(a)
    {
      OneTurn(a, p);
    }
    forall n: nat
      ensures Early(Times(a, n), x) ==> Early(a, x)
      ensures OnSome(Times(a, n), Reads(x)) ==> OnSome(a, Reads(x))
      ensures OnSome(Times(a, n), Writes(x)) ==> OnSome(a, Writes(x))
    {
      TimesOnly(a, n, x);
    }
    forall p | p in Star(a)
      ensures EarlyIn(p, x) ==> Early(a, x)
      ensures Reads(x) in p ==> OnSome(a, Reads(x))
      ensures Writes(x) in p ==> OnSome(a, Writes(x))
    {
      var n: nat :| p in Times(a, n);
    }
  }

  // ----- The analysis of one stretch from those of its parts -----

  lemma ExactThen(tracked: set<string>, definite: set<string>, first: Analysis, a: iset<Path>,
                  second: Analysis, b: iset<Path>)
    requires Exactly(tracked, definite, first, a) && Exactly(tracked, first.assignedAfter, second, b)
    ensures Exactly(tracked, definite, Then(first, second), Cat(a, b))
  {
    hide Cat, Early, Sure, OnSome;
    forall x
      ensures Early(Cat(a, b), x) <==> Early(a, x) || (!Sure(a, x) && Early(b, x))
      ensures Sure(Cat(a, b), x) <==> Sure(a, x) || Sure(b, x)
      ensures OnSome(Cat(a, b), Reads(x)) <==> OnSome(a, Reads(x)) || OnSome(b, Reads(x))
      ensures OnSome(Cat(a, b), Writes(x)) <==> OnSome(a, Writes(x)) || OnSome(b, Writes(x))
    {
      EarlyCat(a, b, x);
      SureCat(a, b, x);
      SomeCat(a, b, Reads(x));
      SomeCat(a, b, Writes(x));
    }
    SureCat(a, b, "");
  }

  lemma ExactEither(tracked: set<string>, definite: set<string>, first: Analysis, a: iset<Path>,
                    second: Analysis, b: iset<Path>)
    requires Exactly(tracked, definite, first, a) && Exactly(tracked, definite, second, b)
    ensures Exactly(tracked, definite, Ending(first.assignedAfter * second.assignedAfter, Then(first, second)), a + b)
  {
    hide Exactly;
    forall x
      ensures Early(a + b, x) <==> Early(a, x) || Early(b, x)
      ensures Sure(a + b, x) <==> Sure(a, x) && Sure(b, x)
      ensures OnSome(a + b, Reads(x)) <==> OnSome(a, Reads(x)) || OnSome(b, Reads(x))
      ensures OnSome(a + b, Writes(x)) <==> OnSome(a, Writes(x)) || OnSome(b, Writes(x))
    {
      EitherIs(a, b, x);
    }
    EitherExact(tracked, definite, first, a, second, b);
  }

  lemma EitherIs(a: iset<Path>, b: iset<Path>, x: string)
    ensures Early(a + b, x) <==> Early(a, x) || Early(b, x)
    ensures Sure(a + b, x) <==> Sure(a, x) && Sure(b, x)
    ensures OnSome(a + b, Reads(x)) <==> OnSome(a, Reads(x)) || OnSome(b, Reads(x))
    ensures OnSome(a + b, Writes(x)) <==> OnSome(a, Writes(x)) || OnSome(b, Writes(x))
  {
    hide EarlyIn;
    assert forall p :: p in a || p in b ==> p in a + b;
  }

  lemma EitherExact(tracked: set<string>, definite: set<string>, first: Analysis, a: iset<Path>,
                    second: Analysis, b: iset<Path>)
    requires Exactly(tracked, definite, first, a) && Exactly(tracked, definite, second, b)
    requires forall x :: Early(a + b, x) <==> Early(a, x) || Early(b, x)
    requires forall x :: Sure(a + b, x) <==> Sure(a, x) && Sure(b, x)
    requires forall x :: OnSome(a + b, Reads(x)) <==> OnSome(a, Reads(x)) || OnSome(b, Reads(x))
    requires forall x :: OnSome(a + b, Writes(x)) <==> OnSome(a, Writes(x)) || OnSome(b, Writes(x))
    ensures Exactly(tracked, definite, Ending(first.assignedAfter * second.assignedAfter, Then(first, second)), a + b)
  {
    hide Early, Sure, OnSome;
    var p :| p in a;
    assert p in a + b;
  }

  lemma ExactStar(tracked: set<string>, definite: set<string>, r: Analysis, a: iset<Path>)
    requires Exactly(tracked, definite, r, a)
    ensures Exactly(tracked, definite, Ending(definite, r), Star(a))
  {
    hide Star, Early, Sure, OnSome;
    forall x
      ensures [] in Star(a) && !Sure(Star(a), x) && (Early(Star(a), x) <==> Early(a, x))
      ensures OnSome(Star(a), Reads(x)) <==> OnSome(a, Reads(x))
      ensures OnSome(Star(a), Writes(x)) <==> OnSome(a, Writes(x))
    {
      StarIs(a, x);
    }
    StarIs(a, "");
  }

  lemma ExactNothing(tracked: set<string>, definite: set<string>)
    ensures Exactly(tracked, definite, Nothing(definite), NOTHING)
  {
    assert [] in NOTHING;
    forall x
      ensures !Early(NOTHING, x) && !Sure(NOTHING, x)
      ensures !OnSome(NOTHING, Reads(x)) && !OnSome(NOTHING, Writes(x))
    {
      assert Writes(x) !in [];
    }
  }

  lemma OnePath(p: Path, x: string)
    ensures Early(iset{p}, x) <==> EarlyIn(p, x)
    ensures Sure(iset{p}, x) <==> Writes(x) in p
    ensures OnSome(iset{p}, Reads(x)) <==> Reads(x) in p
    ensures OnSome(iset{p}, Writes(x)) <==> Writes(x) in p
  {
    hide EarlyIn;
    assert p in iset{p};
  }

  lemma ExactRead(tracked: set<string>, definite: set<string>, x: string)
    ensures Exactly(tracked, definite, ReadName(tracked, x, definite), iset{[Reads(x)]})
  {
    hide Early, Sure, OnSome;
    var p := [Reads(x)];
    assert p in iset{p};
    forall y
      ensures Early(iset{p}, y) <==> x == y
      ensures !Sure(iset{p}, y) && !OnSome(iset{p}, Writes(y)) && (OnSome(iset{p}, Reads(y)) <==> x == y)
    {
      OnePath(p, y);
      assert p[0] == Reads(x) && p[..0] == [];
    }
  }

  lemma ExactStores(tracked: set<string>, definite: set<string>, x: string, aop: AssignOp)
    ensures Exactly(tracked, definite, AssignName(tracked, x, definite, aop.Compound?), iset{Stores(x, aop)})
  {
    hide Early, Sure, OnSome;
    var p := Stores(x, aop);
    assert p in iset{p};
    forall y
      ensures Early(iset{p}, y) <==> x == y && aop.Compound?
      ensures (Sure(iset{p}, y) <==> x == y) && (OnSome(iset{p}, Writes(y)) <==> x == y)
      ensures OnSome(iset{p}, Reads(y)) ==> x == y
    {
      OnePath(p, y);
      StoresTouch(x, aop, y);
    }
  }

  lemma StoresTouch(x: string, aop: AssignOp, y: string)
    ensures EarlyIn(Stores(x, aop), y) <==> x == y && aop.Compound?
    ensures (Writes(y) in Stores(x, aop) <==> x == y) && (Reads(y) in Stores(x, aop) ==> x == y)
  {
    var p := Stores(x, aop);
    if aop.Compound? { assert p[0] == Reads(x) && p[..0] == []; }
  }

  lemma ExactStep(tracked: set<string>, definite: set<string>, x: string)
    ensures Exactly(tracked, definite, Then(ReadName(tracked, x, definite), AssignName(tracked, x, definite, false)),
                    iset{[Reads(x), Writes(x)]})
  {
    hide Exactly;
    ExactRead(tracked, definite, x);
    ExactStores(tracked, definite, x, Plain);
    ExactThen(tracked, definite, ReadName(tracked, x, definite), iset{[Reads(x)]},
              AssignName(tracked, x, definite, false), iset{[Writes(x)]});
    assert [Reads(x)] + [Writes(x)] == [Reads(x), Writes(x)];
    assert Cat(iset{[Reads(x)]}, iset{[Writes(x)]}) == iset{[Reads(x), Writes(x)]};
  }

  /** A second reading of the same paths, with more written, says nothing new. */
  lemma SaysLess(tracked: set<string>, less: set<string>, more: set<string>, r: Analysis,
                 again: Analysis, a: iset<Path>)
    requires Exactly(tracked, less, r, a) && Exactly(tracked, more, again, a) && less <= more
    ensures again.readBefore <= r.readBefore && again.assignedNames <= r.assignedNames
    ensures again.encountered <= r.encountered
  {
    hide Early, Sure, OnSome;
  }

  lemma Grows(tracked: set<string>, definite: set<string>, r: Analysis, a: iset<Path>)
    requires Exactly(tracked, definite, r, a)
    ensures definite <= r.assignedAfter
  {
    hide Early, Sure, OnSome;
  }

  /** A condition, and a body and the condition again any number of times. */
  lemma ExactLoop(tracked: set<string>, definite: set<string>, test: Analysis, c: iset<Path>,
                  body: Analysis, b: iset<Path>,
                  again: Analysis)
    requires Exactly(tracked, definite, test, c) && Exactly(tracked, test.assignedAfter, body, b)
    requires Exactly(tracked, body.assignedAfter, again, c)
    ensures Exactly(tracked, definite, Ending(test.assignedAfter, Then(test, body)), Cat(c, Star(Cat(b, c))))
  {
    hide Exactly, Cat, Star;
    var turn := Then(body, again);
    ExactThen(tracked, test.assignedAfter, body, b, again, c);
    ExactStar(tracked, test.assignedAfter, turn, Cat(b, c));
    ExactThen(tracked, definite, test, c, Ending(test.assignedAfter, turn), Star(Cat(b, c)));
    Grows(tracked, definite, test, c);
    Grows(tracked, test.assignedAfter, body, b);
    SaysLess(tracked, definite, body.assignedAfter, test, again, c);
    assert Then(test, Ending(test.assignedAfter, turn)) == Ending(test.assignedAfter, Then(test, body));
  }

  // ----- The analysis is exact -----

  lemma {:induction false} ExprExact(tracked: set<string>, e: Expr, definite: set<string>)
    ensures Exactly(tracked, definite, AnalyzeExpr(tracked, e, definite), ExprPaths(e))
    decreases e, 1
  {
    hide Exactly, Cat;
    match e
    case Number(_) => ExactNothing(tracked, definite);
    case Name(x) => ExactRead(tracked, definite, x);
    case Builtin(_) => ExactNothing(tracked, definite);
    case Assign(x, aop, right) =>
      var value := AnalyzeExpr(tracked, right, definite);
      ExprExact(tracked, right, definite);
      ExactStores(tracked, value.assignedAfter, x, aop);
      ExactThen(tracked, definite, value, ExprPaths(right),
                AssignName(tracked, x, value.assignedAfter, aop.Compound?), iset{Stores(x, aop)});
    case Sign(_, operand) => ExprExact(tracked, operand, definite);
    case Increment(x, _, _) => ExactStep(tracked, definite, x);
    case Arith(_, l, r) => PairExact(tracked, e, l, r, definite);
    case Compare(_, l, r) => PairExact(tracked, e, l, r, definite);
    case And(l, r) => PairExact(tracked, e, l, r, definite);
    case Or(l, r) => PairExact(tracked, e, l, r, definite);
    case Conditional(c, t, f) =>
      var test := AnalyzeExpr(tracked, c, definite);
      ExprExact(tracked, c, definite);
      ExprExact(tracked, t, test.assignedAfter);
      ExprExact(tracked, f, test.assignedAfter);
      ForkExact(tracked, definite, test, ExprPaths(c), AnalyzeExpr(tracked, t, test.assignedAfter), ExprPaths(t),
                AnalyzeExpr(tracked, f, test.assignedAfter), ExprPaths(f));
  }

  lemma {:induction false} PairExact(tracked: set<string>, e: Expr, l: Expr, r: Expr, definite: set<string>)
    requires l < e && r < e
    ensures
      var left := AnalyzeExpr(tracked, l, definite);
      Exactly(tracked, definite, Then(left, AnalyzeExpr(tracked, r, left.assignedAfter)),
              Cat(ExprPaths(l), ExprPaths(r)))
    decreases e, 0
  {
    hide Exactly, Cat;
    var left := AnalyzeExpr(tracked, l, definite);
    ExprExact(tracked, l, definite);
    ExprExact(tracked, r, left.assignedAfter);
    ExactThen(tracked, definite, left, ExprPaths(l), AnalyzeExpr(tracked, r, left.assignedAfter), ExprPaths(r));
  }

  /** A condition, and then one of two. */
  lemma ForkExact(tracked: set<string>, definite: set<string>, test: Analysis, c: iset<Path>,
                  yes: Analysis, a: iset<Path>,
                  no: Analysis, b: iset<Path>)
    requires Exactly(tracked, definite, test, c)
    requires Exactly(tracked, test.assignedAfter, yes, a) && Exactly(tracked, test.assignedAfter, no, b)
    ensures Exactly(tracked, definite, Ending(yes.assignedAfter * no.assignedAfter, Then(Then(test, yes), no)),
                    Cat(c, a + b))
  {
    hide Exactly, Cat;
    var either := Ending(yes.assignedAfter * no.assignedAfter, Then(yes, no));
    ExactEither(tracked, test.assignedAfter, yes, a, no, b);
    ExactThen(tracked, definite, test, c, either, a + b);
    assert Then(test, either) == Ending(yes.assignedAfter * no.assignedAfter, Then(Then(test, yes), no));
  }

  lemma {:induction false} AllExact(tracked: set<string>, es: seq<Expr>, definite: set<string>)
    ensures Exactly(tracked, definite, AnalyzeAll(tracked, es, definite), AllPaths(es))
  {
    hide Exactly, Cat, ExprPaths, AnalyzeExpr;
    if es == [] {
      ExactNothing(tracked, definite);
    } else {
      var first := AnalyzeExpr(tracked, es[0], definite);
      ExprExact(tracked, es[0], definite);
      AllExact(tracked, es[1..], first.assignedAfter);
      ExactThen(tracked, definite, first, ExprPaths(es[0]), AnalyzeAll(tracked, es[1..], first.assignedAfter),
                AllPaths(es[1..]));
    }
  }

  lemma TestExact(tracked: set<string>, test: Option<Expr>, definite: set<string>)
    ensures Exactly(tracked, definite, AnalyzeTest(tracked, test, definite), TestPaths(test))
  {
    hide Exactly, ExprPaths, AnalyzeExpr;
    if test.None? { ExactNothing(tracked, definite); } else { ExprExact(tracked, test.value, definite); }
  }

  lemma {:induction false} StmtExact(tracked: set<string>, s: Stmt, definite: set<string>)
    ensures Exactly(tracked, definite, AnalyzeStmt(tracked, s, definite), StmtPaths(s))
    decreases s, 1
  {
    hide Exactly, Cat, Star, ExprPaths, AnalyzeExpr, AllPaths, AnalyzeAll;
    match s
    case AssignStmt(x, aop, e) =>
      var value := AnalyzeExpr(tracked, e, definite);
      ExprExact(tracked, e, definite);
      ExactStores(tracked, value.assignedAfter, x, aop);
      ExactThen(tracked, definite, value, ExprPaths(e),
                AssignName(tracked, x, value.assignedAfter, aop.Compound?), iset{Stores(x, aop)});
    case ExprStmt(e) => ExprExact(tracked, e, definite);
    case Print(es) => AllExact(tracked, es, definite);
    case Block(ss) => StmtsExact(tracked, ss, definite);
    case If(_, _, _) => IfExact(tracked, s, definite);
    case While(c, body) =>
      var test := AnalyzeExpr(tracked, c, definite);
      var turn := AnalyzeStmt(tracked, body, test.assignedAfter);
      ExprExact(tracked, c, definite);
      StmtExact(tracked, body, test.assignedAfter);
      ExprExact(tracked, c, turn.assignedAfter);
      ExactLoop(tracked, definite, test, ExprPaths(c), turn, StmtPaths(body),
                AnalyzeExpr(tracked, c, turn.assignedAfter));
    case DoWhile(body, c) =>
      var first := AnalyzeStmt(tracked, body, definite);
      var test := AnalyzeExpr(tracked, c, first.assignedAfter);
      StmtExact(tracked, body, definite);
      ExprExact(tracked, c, first.assignedAfter);
      ExactThen(tracked, definite, first, StmtPaths(body), test, ExprPaths(c));
      ExactStar(tracked, definite, Then(first, test), Cat(StmtPaths(body), ExprPaths(c)));
    case For(_, _, _, _) => ForExact(tracked, s, definite);
    case BreakStmt => ExactNothing(tracked, definite);
    case ContinueStmt => ExactNothing(tracked, definite);
    case NextStmt => ExactNothing(tracked, definite);
    case NextFileStmt => ExactNothing(tracked, definite);
    case ExitStmt(_) => ExactNothing(tracked, definite);
  }

  lemma {:induction false} IfExact(tracked: set<string>, s: Stmt, definite: set<string>)
    requires s.If?
    ensures Exactly(tracked, definite, AnalyzeStmt(tracked, s, definite), StmtPaths(s))
    decreases s, 0
  {
    hide Exactly, Cat, ExprPaths, AnalyzeExpr;
    var test := AnalyzeExpr(tracked, s.condition, definite);
    var yes := AnalyzeStmt(tracked, s.thenBranch, test.assignedAfter);
    ExprExact(tracked, s.condition, definite);
    StmtExact(tracked, s.thenBranch, test.assignedAfter);
    if s.elseBranch.None? {
      var no := Nothing(test.assignedAfter);
      ExactNothing(tracked, test.assignedAfter);
      ForkExact(tracked, definite, test, ExprPaths(s.condition), yes, StmtPaths(s.thenBranch), no, NOTHING);
      assert Ending(yes.assignedAfter * no.assignedAfter, Then(Then(test, yes), no))
        == Ending(test.assignedAfter * yes.assignedAfter, Then(test, yes));
    } else {
      StmtExact(tracked, s.elseBranch.value, test.assignedAfter);
      ForkExact(tracked, definite, test, ExprPaths(s.condition), yes, StmtPaths(s.thenBranch),
                AnalyzeStmt(tracked, s.elseBranch.value, test.assignedAfter), StmtPaths(s.elseBranch.value));
    }
  }

  lemma {:induction false} ForExact(tracked: set<string>, s: Stmt, definite: set<string>)
    requires s.For?
    ensures Exactly(tracked, definite, AnalyzeStmt(tracked, s, definite), StmtPaths(s))
    decreases s, 0
  {
    hide Exactly, Cat, Star, AllPaths, AnalyzeAll, TestPaths, AnalyzeTest;
    var start := AnalyzeAll(tracked, s.init, definite);
    var test := AnalyzeTest(tracked, s.test, start.assignedAfter);
    var turn := AnalyzeStmt(tracked, s.body, test.assignedAfter);
    var update := AnalyzeAll(tracked, s.update, turn.assignedAfter);
    var b, c := Cat(StmtPaths(s.body), AllPaths(s.update)), TestPaths(s.test);
    AllExact(tracked, s.init, definite);
    TestExact(tracked, s.test, start.assignedAfter);
    StmtExact(tracked, s.body, test.assignedAfter);
    AllExact(tracked, s.update, turn.assignedAfter);
    TestExact(tracked, s.test, update.assignedAfter);
    ExactThen(tracked, test.assignedAfter, turn, StmtPaths(s.body), update, AllPaths(s.update));
    ExactLoop(tracked, start.assignedAfter, test, c, Then(turn, update), b,
              AnalyzeTest(tracked, s.test, update.assignedAfter));
    ThenThen(test, turn, update);
    ExactThen(tracked, definite, start, AllPaths(s.init), AnalyzeTurn(tracked, s, start.assignedAfter),
              Cat(c, Star(Cat(b, c))));
  }

  lemma {:induction false} StmtsExact(tracked: set<string>, ss: seq<Stmt>, definite: set<string>)
    ensures Exactly(tracked, definite, AnalyzeStmts(tracked, ss, definite), StmtsPaths(ss))
    decreases ss, 0
  {
    hide Exactly, Cat, StmtPaths, AnalyzeStmt;
    if ss == [] {
      ExactNothing(tracked, definite);
    } else {
      var first := AnalyzeStmt(tracked, ss[0], definite);
      StmtExact(tracked, ss[0], definite);
      StmtsExact(tracked, ss[1..], first.assignedAfter);
      ExactThen(tracked, definite, first, StmtPaths(ss[0]), AnalyzeStmts(tracked, ss[1..], first.assignedAfter),
                StmtsPaths(ss[1..]));
    }
  }

  lemma {:induction false} ActionsExact(tracked: set<string>, actions: seq<Action>, definite: set<string>)
    ensures Exactly(tracked, definite, AnalyzeActions(tracked, actions, definite), ActionsPaths(actions))
    decreases actions
  {
    hide Exactly, Cat, StmtsPaths, AnalyzeStmts;
    if actions == [] {
      ExactNothing(tracked, definite);
    } else {
      var first := AnalyzeStmts(tracked, actions[0], definite);
      StmtsExact(tracked, actions[0], definite);
      ActionsExact(tracked, actions[1..], first.assignedAfter);
      ExactThen(tracked, definite, first, StmtsPaths(actions[0]),
                AnalyzeActions(tracked, actions[1..], first.assignedAfter),
                ActionsPaths(actions[1..]));
    }
  }

  lemma PatternExact(tracked: set<string>, pattern: Pattern, definite: set<string>)
    ensures Exactly(tracked, definite, AnalyzePattern(tracked, pattern, definite), PatternPaths(pattern))
  {
    hide Exactly, ExprPaths, AnalyzeExpr;
    match pattern
    case Always => ExactNothing(tracked, definite);
    case When(test) => ExprExact(tracked, test, definite);
    case Range(left, right, _) =>
      var a, b := AnalyzeExpr(tracked, left, definite), AnalyzeExpr(tracked, right, definite);
      ExprExact(tracked, left, definite);
      ExprExact(tracked, right, definite);
      Grows(tracked, definite, a, ExprPaths(left));
      Grows(tracked, definite, b, ExprPaths(right));
      ExactNothing(tracked, definite);
      var either := Ending(a.assignedAfter * b.assignedAfter, Then(a, b));
      ExactEither(tracked, definite, a, ExprPaths(left), b, ExprPaths(right));
      ExactEither(tracked, definite, Nothing(definite), NOTHING, either, ExprPaths(left) + ExprPaths(right));
      assert Ending(definite * either.assignedAfter, Then(Nothing(definite), either)) == Ending(definite, Then(a, b));
  }

  lemma ItemExact(tracked: set<string>, item: RecordItem, definite: set<string>)
    ensures Exactly(tracked, definite, AnalyzeItem(tracked, item, definite), ItemPaths(item))
  {
    hide Exactly, Cat, PatternPaths, AnalyzePattern, StmtsPaths, AnalyzeStmts;
    var test := AnalyzePattern(tracked, item.pattern, definite);
    PatternExact(tracked, item.pattern, definite);
    if item.action.Some? {
      var action := AnalyzeStmts(tracked, item.action.value, test.assignedAfter);
      StmtsExact(tracked, item.action.value, test.assignedAfter);
      if item.pattern.Always? {
        assert test == Nothing(definite) by { AlwaysIs(tracked, definite); }
        assert Ending(action.assignedAfter, Then(test, action)) == action;
      } else {
        var skip := Nothing(test.assignedAfter);
        ExactNothing(tracked, test.assignedAfter);
        ExactEither(tracked, test.assignedAfter, skip, NOTHING, action, StmtsPaths(item.action.value));
        var maybe := Ending(skip.assignedAfter * action.assignedAfter, Then(skip, action));
        ExactThen(tracked, definite, test, PatternPaths(item.pattern), maybe, NOTHING + StmtsPaths(item.action.value));
        assert Then(test, maybe) == Ending(test.assignedAfter * action.assignedAfter, Then(test, action));
      }
    }
  }

  lemma AlwaysIs(tracked: set<string>, definite: set<string>)
    ensures AnalyzePattern(tracked, Always, definite) == Nothing(definite)
  {
  }

  lemma {:induction false} ItemsExact(tracked: set<string>, items: seq<RecordItem>, definite: set<string>)
    ensures Exactly(tracked, definite, AnalyzeItems(tracked, items, definite), ItemsPaths(items))
    decreases items
  {
    hide Exactly, Cat, ItemPaths, AnalyzeItem;
    if items == [] {
      ExactNothing(tracked, definite);
    } else {
      var first := AnalyzeItem(tracked, items[0], definite);
      ItemExact(tracked, items[0], definite);
      ItemsExact(tracked, items[1..], first.assignedAfter);
      ExactThen(tracked, definite, first, ItemPaths(items[0]), AnalyzeItems(tracked, items[1..], first.assignedAfter),
                ItemsPaths(items[1..]));
    }
  }

  // ----- Which names are local -----

  ghost predicate Touched(a: iset<Path>, x: string) {
    OnSome(a, Reads(x)) || OnSome(a, Writes(x))
  }

  /** A function mentions the variable, and not a parameter of that name. */
  ghost predicate TouchedByFunctions(p: Program, x: string) {
    exists f :: f in p.functions && x !in f.params && Touched(StmtsPaths(f.body), x)
  }

  /** Some path of the one unit writes the name, none reads it first, and no other unit mentions it. */
  ghost predicate OwnedBy(p: Program, own: iset<Path>, other: iset<Path>, another: iset<Path>, x: string) {
    && OnSome(own, Writes(x)) && !Early(own, x)
    && !Touched(other, x) && !Touched(another, x) && !TouchedByFunctions(p, x)
  }

  lemma {:induction false} FunctionUnit(tracked: set<string>, functions: seq<Function>, i: nat)
    requires i < |functions|
    ensures FunctionUnits(tracked, functions)[i] == AnalyzeFunction(tracked, functions[i])
  {
    if i > 0 { FunctionUnit(tracked, functions[1..], i - 1); }
  }

  /** What the units mention, as their paths do. */
  lemma UnitsExact(p: Program, tracked: set<string>)
    ensures
      var units := Units(p, tracked);
      && Exactly(tracked, {}, units[0], ActionsPaths(p.begin)) && Exactly(tracked, {}, units[1], ItemsPaths(p.items))
      && Exactly(tracked, {}, units[2], ActionsPaths(p.end))
      && forall x :: x in tracked ==>
          (TouchedByFunctions(p, x) <==> exists i :: 3 <= i < |units| && x in units[i].encountered)
  {
    hide Exactly, ActionsPaths, ItemsPaths, StmtsPaths, AnalyzeActions, AnalyzeItems, AnalyzeFunction, Touched;
    ActionsExact(tracked, p.begin, {});
    ItemsExact(tracked, p.items, {});
    ActionsExact(tracked, p.end, {});
    var units := Units(p, tracked);
    forall i | 0 <= i < |p.functions|
      ensures units[3 + i] == AnalyzeFunction(tracked, p.functions[i])
      ensures forall x :: x in units[3 + i].encountered <==>
        x in tracked && x !in p.functions[i].params && Touched(StmtsPaths(p.functions[i].body), x)
    {
      FunctionUnit(tracked, p.functions, i);
      FunctionExact(tracked, p.functions[i]);
    }
    forall x | x in tracked
      ensures TouchedByFunctions(p, x) <==> exists i :: 3 <= i < |units| && x in units[i].encountered
    {
      if TouchedByFunctions(p, x) {
        var f :| f in p.functions && x !in f.params && Touched(StmtsPaths(f.body), x);
        var i :| 0 <= i < |p.functions| && p.functions[i] == f;
        assert x in units[3 + i].encountered;
      }
      if i :| 3 <= i < |units| && x in units[i].encountered {
        assert units[i] == units[3 + (i - 3)] && p.functions[i - 3] in p.functions;
      }
    }
  }

  lemma FunctionExact(tracked: set<string>, f: Function)
    ensures forall x :: x in AnalyzeFunction(tracked, f).encountered <==>
      x in tracked && x !in f.params && Touched(StmtsPaths(f.body), x)
  {
    hide StmtsPaths, AnalyzeStmts, Early, Sure, OnSome;
    StmtsExact(tracked - f.params, f.body, {});
  }

  /** The classification finds every local name there is: a tracked name gets a cell of a unit's own if and only if
      some path of the unit writes it, none reads it before it is written, and no other unit mentions it. */
  lemma ClassifiedExactly(p: Program, tracked: set<string>, r: Residency)
    requires Classifies(p, tracked, r)
    ensures
      var begin, record, end := ActionsPaths(p.begin), ItemsPaths(p.items), ActionsPaths(p.end);
      var layout := Storage.LayoutOf(r);
      && (forall x :: x in layout.begin <==> x in tracked && OwnedBy(p, begin, record, end, x))
      && (forall x :: x in layout.record <==> x in tracked && OwnedBy(p, record, begin, end, x))
      && (forall x :: x in layout.end <==> x in tracked && OwnedBy(p, end, begin, record, x))
  {
    hide ActionsPaths, ItemsPaths, AnalyzeActions, AnalyzeItems, Units, Early, Sure, OnSome, TouchedByFunctions;
    var units := Units(p, tracked);
    UnitsExact(p, tracked);
    forall x
      ensures x in r.begin <==>
        x in tracked && OwnedBy(p, ActionsPaths(p.begin), ItemsPaths(p.items), ActionsPaths(p.end), x)
      ensures x in r.record <==>
        x in tracked && OwnedBy(p, ItemsPaths(p.items), ActionsPaths(p.begin), ActionsPaths(p.end), x)
      ensures x in r.end <==>
        x in tracked && OwnedBy(p, ActionsPaths(p.end), ActionsPaths(p.begin), ItemsPaths(p.items), x)
    {
      SharedIs(units, 0, x);
      SharedIs(units, 1, x);
      SharedIs(units, 2, x);
    }
  }

  lemma SharedIs(units: seq<Analysis>, i: nat, x: string)
    requires i < |units|
    ensures x in units[i].encountered ==>
      (SharedBy(units, x) <==> exists j :: 0 <= j < |units| && j != i && x in units[j].encountered)
  {
  }
}

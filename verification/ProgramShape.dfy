/** What the theorems about compiled programs ask of a program, said of its parts: of the expressions
    inside expressions and the statements inside statements. */
module ProgramShape {
  import opened Options
  import opened Syntax
  import opened Effects
  import opened Readings
  import opened ResidencySound
  import opened Storage
  import opened ExprSimulation
  import opened StmtSimulation
  import opened PhaseSimulation
  import opened WellFormedStmt
  import opened CompiledProgram
  import Meaning

  // ----- Expressions inside expressions -----

  /** The expression and all that are inside it. */
  function Parts(e: Expr): set<Expr> {
    {e} + match e
      case Number(_) => {}
      case Name(_) => {}
      case Builtin(_) => {}
      case Assign(_, _, right) => Parts(right)
      case Sign(_, operand) => Parts(operand)
      case Increment(_, _, _) => {}
      case Arith(_, l, r) => Parts(l) + Parts(r)
      case Compare(_, l, r) => Parts(l) + Parts(r)
      case And(l, r) => Parts(l) + Parts(r)
      case Or(l, r) => Parts(l) + Parts(r)
      case Conditional(c, t, f) => Parts(c) + Parts(t) + Parts(f)
  }

  predicate Changes(e: Expr) {
    e.Assign? || e.Increment?
  }

  ghost predicate ChangesInside(e: Expr) {
    exists p :: p in Parts(e) && Changes(p)
  }

  lemma {:induction false} SideEffectsAre(e: Expr)
    ensures HasSideEffects(e) <==> ChangesInside(e)
  {
    match e
    case Assign(_, _, _) => assert e in Parts(e) && Changes(e);
    case Increment(_, _, _) => assert e in Parts(e) && Changes(e);
    case Sign(_, operand) => SideEffectsAre(operand);
    case Arith(_, l, r) => SideEffectsAre(l); SideEffectsAre(r);
    case Compare(_, l, r) => SideEffectsAre(l); SideEffectsAre(r);
    case And(l, r) => SideEffectsAre(l); SideEffectsAre(r);
    case Or(l, r) => SideEffectsAre(l); SideEffectsAre(r);
    case Conditional(c, t, f) => SideEffectsAre(c); SideEffectsAre(t); SideEffectsAre(f);
    case _ =>
  }

  predicate Stores(e: Expr, x: string) {
    (e.Assign? && e.target == x) || (e.Increment? && e.name == x)
  }

  lemma {:induction false} TargetsAre(e: Expr, x: string)
    ensures x in Targets(e) <==> exists p :: p in Parts(e) && Stores(p, x)
  {
    assert e in Parts(e);
    if Stores(e, x) { return; }
    match e
    case Assign(_, _, right) => TargetsAre(right, x);
    case Sign(_, operand) => TargetsAre(operand, x);
    case Arith(_, l, r) => TargetsAre(l, x); TargetsAre(r, x);
    case Compare(_, l, r) => TargetsAre(l, x); TargetsAre(r, x);
    case And(l, r) => TargetsAre(l, x); TargetsAre(r, x);
    case Or(l, r) => TargetsAre(l, x); TargetsAre(r, x);
    case Conditional(c, t, f) => TargetsAre(c, x); TargetsAre(t, x); TargetsAre(f, x);
    case _ =>
  }

  /** What may be text to the backend. */
  predicate MaybeText(e: Expr) {
    e.Assign? || e.Compare? || e.And? || e.Or? || e.Conditional?
  }

  ghost predicate Numeric(e: Expr) {
    forall p :: p in Parts(e) ==> !MaybeText(p)
  }

  lemma {:induction false} NumericAre(e: Expr)
    ensures DefinitelyNumeric(e) <==> Numeric(e)
  {
    assert e in Parts(e);
    match e
    case Sign(_, operand) => NumericAre(operand);
    case Arith(_, l, r) => NumericAre(l); NumericAre(r);
    case Number(_) => assert Parts(e) == {e};
    case Name(_) => assert Parts(e) == {e};
    case Builtin(_) => assert Parts(e) == {e};
    case Increment(_, _, _) => assert Parts(e) == {e};
    case _ => assert MaybeText(e);
  }

  // ----- Evaluating twice -----

  /** Where a comparison evaluates its operands twice, they change nothing. */
  ghost predicate TwiceIsOnce(e: Expr) {
    e.Compare? ==> (Numeric(e.left) && Numeric(e.right)) || (!ChangesInside(e.left) && !ChangesInside(e.right))
  }

  ghost predicate AllTwiceIsOnce(e: Expr) {
    forall p :: p in Parts(e) ==> TwiceIsOnce(p)
  }

  lemma {:induction false} SafelyIs(e: Expr)
    ensures ComparesSafely(e) <==> AllTwiceIsOnce(e)
  {
    hide HasSideEffects, DefinitelyNumeric, Numeric, ChangesInside;
    assert e in Parts(e);
    match e
    case Assign(_, _, right) => SafelyIs(right);
    case Sign(_, operand) => SafelyIs(operand);
    case Arith(_, l, r) => SafelyIs(l); SafelyIs(r);
    case Compare(_, l, r) =>
      SafelyIs(l);
      SafelyIs(r);
      NumericAre(l);
      NumericAre(r);
      SideEffectsAre(l);
      SideEffectsAre(r);
    case And(l, r) => SafelyIs(l); SafelyIs(r);
    case Or(l, r) => SafelyIs(l); SafelyIs(r);
    case Conditional(c, t, f) => SafelyIs(c); SafelyIs(t); SafelyIs(f);
    case _ =>
  }

  // ----- What the residency analysis is right about -----

  /** Nothing is changed where it may not run, and no compound assignment to what its right side changes. */
  ghost predicate InOrder(e: Expr) {
    && (e.And? || e.Or? ==> !ChangesInside(e.right))
    && (e.Assign? && e.aop.Compound? ==> forall p :: p in Parts(e.right) ==> !Stores(p, e.target))
  }

  ghost predicate AllInOrder(e: Expr) {
    forall p :: p in Parts(e) ==> InOrder(p)
  }

  lemma {:induction false} NoTargets(e: Expr)
    ensures Targets(e) == {} <==> !ChangesInside(e)
  {
    if ChangesInside(e) {
      var p :| p in Parts(e) && Changes(p);
      var x := if p.Assign? then p.target else p.name;
      TargetsAre(e, x);
      assert Stores(p, x);
    }
    if Targets(e) != {} {
      var x :| x in Targets(e);
      TargetsAre(e, x);
      var p :| p in Parts(e) && Stores(p, x);
      assert Changes(p);
    }
  }

  lemma {:induction false} OrderlyIs(e: Expr)
    ensures Orderly(e) <==> AllInOrder(e)
  {
    hide Targets, ChangesInside, Stores;
    assert e in Parts(e);
    match e
    case Assign(x, _, right) =>
      OrderlyIs(right);
      TargetsAre(right, x);
    case Sign(_, operand) => OrderlyIs(operand);
    case Arith(_, l, r) => OrderlyIs(l); OrderlyIs(r);
    case Compare(_, l, r) => OrderlyIs(l); OrderlyIs(r);
    case And(l, r) => OrderlyIs(l); OrderlyIs(r); NoTargets(r);
    case Or(l, r) => OrderlyIs(l); OrderlyIs(r); NoTargets(r);
    case Conditional(c, t, f) => OrderlyIs(c); OrderlyIs(t); OrderlyIs(f);
    case _ =>
  }

  // ----- Ternaries that can be joined -----

  /** The emitted code opens blocks of its own: for `&&` and `||`, for a ternary whose branches change
      something, and for a ternary that is compared as text. */
  ghost predicate OpensBlock(e: Expr) {
    || e.And? || e.Or?
    || (e.Conditional? && (ChangesInside(e.ifTrue) || ChangesInside(e.ifFalse)))
    || (e.Compare? && !(Numeric(e.left) && Numeric(e.right)) && (e.left.Conditional? || e.right.Conditional?))
  }

  ghost predicate Opens(e: Expr) {
    exists p :: p in Parts(e) && OpensBlock(p)
  }

  lemma {:induction false} ForksAre(e: Expr)
    ensures NumberForks(e) == ConditionForks(e) == Opens(e)
    decreases e
  {
    hide HasSideEffects, DefinitelyNumeric, Numeric, ChangesInside;
    assert e in Parts(e);
    match e
    case Assign(_, _, right) => ForksAre(right);
    case Sign(_, operand) => ForksAre(operand);
    case Arith(_, l, r) => ForksAre(l); ForksAre(r);
    case Compare(_, l, r) =>
      ForksAre(l);
      ForksAre(r);
      NumericAre(l);
      NumericAre(r);
    case And(l, r) =>
    case Or(l, r) =>
    case Conditional(c, t, f) =>
      ForksAre(c);
      ForksAre(t);
      ForksAre(f);
      SideEffectsAre(t);
      SideEffectsAre(f);
    case _ =>
  }

  /** A branch that is joined opens no block of its own, nor, compared as text, is it another ternary. */
  ghost predicate CanJoin(e: Expr) {
    && (e.Conditional? && (ChangesInside(e.ifTrue) || ChangesInside(e.ifFalse)) ==>
        !Opens(e.ifTrue) && !Opens(e.ifFalse))
    && (e.Compare? && !(Numeric(e.left) && Numeric(e.right)) ==> TextCanJoin(e.left) && TextCanJoin(e.right))
  }

  ghost predicate TextCanJoin(e: Expr) {
    e.Conditional? ==> !e.ifTrue.Conditional? && !e.ifFalse.Conditional? && !Opens(e.ifTrue) && !Opens(e.ifFalse)
  }

  ghost predicate AllCanJoin(e: Expr) {
    forall p :: p in Parts(e) ==> CanJoin(p)
  }

  lemma {:induction false} JoinsAre(e: Expr)
    ensures NumberJoins(e) == ConditionJoins(e) == AllCanJoin(e)
    ensures TextJoins(e) <==> AllCanJoin(e) && TextCanJoin(e)
    decreases e
  {
    hide HasSideEffects, DefinitelyNumeric, Numeric, ChangesInside, Opens, NumberForks, ConditionForks;
    assert e in Parts(e);
    match e
    case Assign(_, _, right) => JoinsAre(right);
    case Sign(_, operand) => JoinsAre(operand);
    case Arith(_, l, r) => JoinsAre(l); JoinsAre(r);
    case Compare(_, l, r) =>
      JoinsAre(l);
      JoinsAre(r);
      NumericAre(l);
      NumericAre(r);
    case And(l, r) => JoinsAre(l); JoinsAre(r);
    case Or(l, r) => JoinsAre(l); JoinsAre(r);
    case Conditional(c, t, f) =>
      JoinsAre(c);
      JoinsAre(t);
      JoinsAre(f);
      ForksAre(t);
      ForksAre(f);
      SideEffectsAre(t);
      SideEffectsAre(f);
    case _ =>
  }

  // ----- Statements inside statements -----

  /** The statement and all that are inside it. */
  function Inside(s: Stmt): set<Stmt>
    decreases s, 1
  {
    {s} + match s
      case Block(ss) => AllInside(ss)
      case If(_, t, e) => Inside(t) + (if e.Some? then Inside(e.value) else {})
      case While(_, body) => Inside(body)
      case DoWhile(body, _) => Inside(body)
      case For(_, _, _, body) => Inside(body)
      case _ => {}
  }

  function AllInside(ss: seq<Stmt>): set<Stmt>
    decreases ss, 0
  {
    if ss == [] then {} else Inside(ss[0]) + AllInside(ss[1..])
  }

  /** Without those that are inside a loop. */
  function Outside(s: Stmt): set<Stmt>
    decreases s, 1
  {
    {s} + match s
      case Block(ss) => AllOutside(ss)
      case If(_, t, e) => Outside(t) + (if e.Some? then Outside(e.value) else {})
      case _ => {}
  }

  function AllOutside(ss: seq<Stmt>): set<Stmt>
    decreases ss, 0
  {
    if ss == [] then {} else Outside(ss[0]) + AllOutside(ss[1..])
  }

  function Elements(es: seq<Expr>): set<Expr> {
    set e | e in es
  }

  /** The expressions of the statement itself. */
  function Own(s: Stmt): set<Expr> {
    match s
    case AssignStmt(_, _, value) => {value}
    case ExprStmt(e) => {e}
    case Print(es) => Elements(es)
    case If(c, _, _) => {c}
    case While(c, _) => {c}
    case DoWhile(_, c) => {c}
    case For(init, test, update, _) => Elements(init) + (if test.Some? then {test.value} else {}) + Elements(update)
    case ExitStmt(status) => if status.Some? then {status.value} else {}
    case _ => {}
  }

  lemma {:induction false} InsideMembers(ss: seq<Stmt>, t: Stmt)
    ensures t in AllInside(ss) <==> exists u :: u in ss && t in Inside(u)
    ensures t in AllOutside(ss) <==> exists u :: u in ss && t in Outside(u)
    decreases ss
  {
    hide Inside, Outside;
    if ss != [] {
      InsideMembers(ss[1..], t);
      if t in Inside(ss[0]) { assert ss[0] in ss; }
      if t in Outside(ss[0]) { assert ss[0] in ss; }
      forall u | u in ss
        ensures u == ss[0] || u in ss[1..]
      {
      }
    }
  }

  /** Every expression in the statement has what is asked. */
  ghost predicate Throughout(s: Stmt, asked: Expr -> bool) {
    forall t, e :: t in Inside(s) && e in Own(t) ==> asked(e)
  }

  ghost predicate OwnHave(s: Stmt, asked: Expr -> bool) {
    forall e :: e in Own(s) ==> asked(e)
  }

  lemma ThroughoutIs(s: Stmt, asked: Expr -> bool)
    ensures Throughout(s, asked) <==> OwnHave(s, asked) && match s
      case Block(ss) => forall t :: t in ss ==> Throughout(t, asked)
      case If(_, t, e) => Throughout(t, asked) && (e.Some? ==> Throughout(e.value, asked))
      case While(_, body) => Throughout(body, asked)
      case DoWhile(body, _) => Throughout(body, asked)
      case For(_, _, _, body) => Throughout(body, asked)
      case _ => true
  {
    hide Own;
    assert s in Inside(s);
    if s.Block? {
      forall t ensures t in Inside(s) <==> t == s || exists u :: u in s.statements && t in Inside(u) {
        InsideMembers(s.statements, t);
      }
      hide Inside;
    }
  }

  lemma {:induction false} SafeIs(s: Stmt)
    ensures Safe(s) <==> Throughout(s, e => AllTwiceIsOnce(e))
    decreases s
  {
    hide ComparesSafely, AllTwiceIsOnce, Throughout;
    var asked := e => AllTwiceIsOnce(e);
    ThroughoutIs(s, asked);
    forall e ensures ComparesSafely(e) <==> asked(e) { SafelyIs(e); }
    match s
    case Block(ss) => forall t | t in ss ensures Safe(t) <==> Throughout(t, asked) { SafeIs(t); }
    case If(_, t, e) => SafeIs(t); if e.Some? { SafeIs(e.value); }
    case While(_, body) => SafeIs(body);
    case DoWhile(body, _) => SafeIs(body);
    case For(_, _, _, body) => SafeIs(body);
    case _ =>
  }

  lemma {:induction false} JoinedIs(s: Stmt)
    ensures Joins(s) <==> Throughout(s, e => AllCanJoin(e))
    decreases s
  {
    hide NumberJoins, ConditionJoins, AllCanJoin, Throughout;
    var asked := e => AllCanJoin(e);
    ThroughoutIs(s, asked);
    forall e ensures NumberJoins(e) == ConditionJoins(e) == asked(e) { JoinsAre(e); }
    match s
    case Block(ss) => forall t | t in ss ensures Joins(t) <==> Throughout(t, asked) { JoinedIs(t); }
    case If(_, t, e) => JoinedIs(t); if e.Some? { JoinedIs(e.value); }
    case While(_, body) => JoinedIs(body);
    case DoWhile(body, _) => JoinedIs(body);
    case For(_, _, _, body) => JoinedIs(body);
    case _ =>
  }

  /** No `continue` of its own. */
  ghost predicate NeverContinues(s: Stmt) {
    forall t :: t in Outside(s) ==> !t.ContinueStmt?
  }

  /** A `continue` in a loop goes to a condition in front of the body, and `exit` has no value. */
  ghost predicate LoopsInOrder(t: Stmt) {
    (t.DoWhile? || t.For? ==> NeverContinues(t.body)) && (t.ExitStmt? ==> t.status.None?)
  }

  ghost predicate AllLoopsInOrder(s: Stmt) {
    forall t :: t in Inside(s) ==> LoopsInOrder(t)
  }

  lemma LoopsInOrderIs(s: Stmt)
    ensures AllLoopsInOrder(s) <==> LoopsInOrder(s) && match s
      case Block(ss) => forall t :: t in ss ==> AllLoopsInOrder(t)
      case If(_, t, e) => AllLoopsInOrder(t) && (e.Some? ==> AllLoopsInOrder(e.value))
      case While(_, body) => AllLoopsInOrder(body)
      case DoWhile(body, _) => AllLoopsInOrder(body)
      case For(_, _, _, body) => AllLoopsInOrder(body)
      case _ => true
  {
    hide LoopsInOrder;
    assert s in Inside(s);
    if s.Block? {
      forall t ensures t in Inside(s) <==> t == s || exists u :: u in s.statements && t in Inside(u) {
        InsideMembers(s.statements, t);
      }
      hide Inside;
    }
  }

  lemma NeverContinuesIs(s: Stmt)
    ensures NeverContinues(s) <==> match s
      case ContinueStmt => false
      case Block(ss) => forall t :: t in ss ==> NeverContinues(t)
      case If(_, t, e) => NeverContinues(t) && (e.Some? ==> NeverContinues(e.value))
      case _ => true
  {
    assert s in Outside(s);
    if s.Block? {
      forall t ensures t in Outside(s) <==> t == s || exists u :: u in s.statements && t in Outside(u) {
        InsideMembers(s.statements, t);
      }
      hide Outside;
    }
  }

  lemma {:induction false} OrderlyStmtIs(s: Stmt, mayContinue: bool)
    ensures OrderlyStmt(s, mayContinue) <==>
      Throughout(s, e => AllInOrder(e)) && AllLoopsInOrder(s) && (mayContinue || NeverContinues(s))
    decreases s
  {
    hide Orderly, AllInOrder, Throughout, AllLoopsInOrder, NeverContinues;
    var asked := e => AllInOrder(e);
    ThroughoutIs(s, asked);
    LoopsInOrderIs(s);
    NeverContinuesIs(s);
    forall e ensures Orderly(e) <==> asked(e) { OrderlyIs(e); }
    match s
    case Block(ss) =>
      forall t | t in ss
        ensures OrderlyStmt(t, mayContinue) <==>
          Throughout(t, asked) && AllLoopsInOrder(t) && (mayContinue || NeverContinues(t))
      {
        OrderlyStmtIs(t, mayContinue);
      }
    case If(_, t, e) => OrderlyStmtIs(t, mayContinue); if e.Some? { OrderlyStmtIs(e.value, mayContinue); }
    case While(_, body) => OrderlyStmtIs(body, true);
    case DoWhile(body, _) => OrderlyStmtIs(body, false);
    case For(_, _, _, body) => OrderlyStmtIs(body, false);
    case _ =>
  }

  // ----- What is accepted -----

  /** Statements that leave a loop stand inside one, and those that leave the record in a record action. */
  ghost predicate WellPlaced(s: Stmt, inRecordAction: bool, inLoop: bool) {
    && (inLoop || forall t :: t in Outside(s) ==> !t.BreakStmt? && !t.ContinueStmt?)
    && (inRecordAction || forall t :: t in Inside(s) ==> !t.NextStmt? && !t.NextFileStmt?)
  }

  lemma WellPlacedIs(s: Stmt, inRecordAction: bool, inLoop: bool)
    ensures WellPlaced(s, inRecordAction, inLoop) <==> match s
      case BreakStmt => inLoop
      case ContinueStmt => inLoop
      case NextStmt => inRecordAction
      case NextFileStmt => inRecordAction
      case Block(ss) => forall t :: t in ss ==> WellPlaced(t, inRecordAction, inLoop)
      case If(_, t, e) => WellPlaced(t, inRecordAction, inLoop)
        && (e.Some? ==> WellPlaced(e.value, inRecordAction, inLoop))
      case While(_, body) => WellPlaced(body, inRecordAction, true)
      case DoWhile(body, _) => WellPlaced(body, inRecordAction, true)
      case For(_, _, _, body) => WellPlaced(body, inRecordAction, true)
      case _ => true
  {
    assert s in Inside(s) && s in Outside(s);
    if s.Block? {
      forall t
        ensures t in Inside(s) <==> t == s || exists u :: u in s.statements && t in Inside(u)
        ensures t in Outside(s) <==> t == s || exists u :: u in s.statements && t in Outside(u)
      {
        InsideMembers(s.statements, t);
      }
      hide Inside, Outside;
    }
  }

  lemma {:induction false} AcceptedIs(s: Stmt, inRecordAction: bool, loopDepth: nat)
    ensures Accepted(s, inRecordAction, loopDepth) <==> WellPlaced(s, inRecordAction, loopDepth > 0)
    decreases s
  {
    hide WellPlaced;
    WellPlacedIs(s, inRecordAction, loopDepth > 0);
    match s
    case Block(ss) =>
      forall t | t in ss
        ensures Accepted(t, inRecordAction, loopDepth) <==> WellPlaced(t, inRecordAction, loopDepth > 0)
      {
        AcceptedIs(t, inRecordAction, loopDepth);
      }
    case If(_, t, e) =>
      AcceptedIs(t, inRecordAction, loopDepth);
      if e.Some? { AcceptedIs(e.value, inRecordAction, loopDepth); }
    case While(_, body) => AcceptedIs(body, inRecordAction, loopDepth + 1);
    case DoWhile(body, _) => AcceptedIs(body, inRecordAction, loopDepth + 1);
    case For(_, _, _, body) => AcceptedIs(body, inRecordAction, loopDepth + 1);
    case _ =>
  }

  // ----- Whole programs -----

  ghost predicate FineExpr(e: Expr) {
    AllTwiceIsOnce(e) && AllCanJoin(e) && AllInOrder(e)
  }

  ghost predicate FineAction(action: Action, inRecordAction: bool) {
    forall s :: s in action ==>
      Throughout(s, e => FineExpr(e)) && AllLoopsInOrder(s) && WellPlaced(s, inRecordAction, false)
  }

  ghost predicate FineItem(item: RecordItem) {
    && (item.action.Some? ==> FineAction(item.action.value, true))
    && match item.pattern
       case Always => true
       case When(test) => FineExpr(test)
       case Range(left, right, state) => FineExpr(left) && FineExpr(right) && "__range." <= state
  }

  ghost predicate FineProgram(p: Program) {
    && (forall a :: a in p.begin ==> FineAction(a, false))
    && (forall i :: i in p.items ==> FineItem(i))
    && (forall a :: a in p.end ==> FineAction(a, false))
  }

  lemma FineStatement(s: Stmt, inRecordAction: bool)
    ensures Throughout(s, e => FineExpr(e)) && AllLoopsInOrder(s) && WellPlaced(s, inRecordAction, false) <==>
      Safe(s) && Joins(s) && OrderlyStmt(s, true) && Accepted(s, inRecordAction, 0)
  {
    hide AllTwiceIsOnce, AllCanJoin, AllInOrder, AllLoopsInOrder, WellPlaced, Inside, Own, Safe, Joins, OrderlyStmt;
    hide Accepted;
    SafeIs(s);
    JoinedIs(s);
    OrderlyStmtIs(s, true);
    AcceptedIs(s, inRecordAction, 0);
    AllThree(s);
  }

  lemma AllThree(s: Stmt)
    ensures Throughout(s, e => FineExpr(e)) <==>
      (Throughout(s, e => AllTwiceIsOnce(e)) && Throughout(s, e => AllCanJoin(e)) && Throughout(s, e => AllInOrder(e)))
  {
    hide AllTwiceIsOnce, AllCanJoin, AllInOrder, Inside, Own;
    var all, once, join, order := e => FineExpr(e), e => AllTwiceIsOnce(e), e => AllCanJoin(e), e => AllInOrder(e);
    if Throughout(s, once) && Throughout(s, join) && Throughout(s, order) {
      forall t, e | t in Inside(s) && e in Own(t)
        ensures all(e)
      {
        assert once(e) && join(e) && order(e);
      }
    }
    if Throughout(s, all) {
      forall t, e | t in Inside(s) && e in Own(t)
        ensures once(e) && join(e) && order(e)
      {
        assert all(e);
      }
    }
  }

  lemma FineOne(e: Expr)
    ensures FineExpr(e) <==> ComparesSafely(e) && ConditionJoins(e) && Orderly(e)
  {
    hide AllTwiceIsOnce, AllCanJoin, AllInOrder, ComparesSafely, ConditionJoins, Orderly;
    SafelyIs(e);
    JoinsAre(e);
    OrderlyIs(e);
  }

  lemma FineActionIs(action: Action, inRecordAction: bool)
    ensures FineAction(action, inRecordAction) <==>
      ActionSafe(Some(action)) && ActionJoins(Some(action)) && OrderlyAction(action)
        && ActionAccepted(action, inRecordAction)
  {
    hide Throughout, AllLoopsInOrder, WellPlaced, Safe, Joins, OrderlyStmt, Accepted;
    forall s | s in action
      ensures Throughout(s, e => FineExpr(e)) && AllLoopsInOrder(s) && WellPlaced(s, inRecordAction, false) <==>
        Safe(s) && Joins(s) && OrderlyStmt(s, true) && Accepted(s, inRecordAction, 0)
    {
      FineStatement(s, inRecordAction);
    }
  }

  lemma FineItemIs(item: RecordItem)
    ensures FineItem(item) <==>
      && ItemSafe(item) && ItemJoins(item) && OrderlyItem(item)
      && (item.action.Some? ==> ActionAccepted(item.action.value, true))
  {
    hide FineAction, ActionSafe, ActionJoins, OrderlyAction, ActionAccepted, FineExpr;
    hide ComparesSafely, ConditionJoins, Orderly;
    if item.action.Some? { FineActionIs(item.action.value, true); } else { NoAction(); }
    match item.pattern
    case Always =>
    case When(test) => FineOne(test);
    case Range(left, right, _) => FineOne(left); FineOne(right);
  }

  lemma NoAction()
    ensures ActionSafe(None) && ActionJoins(None)
  {
  }

  /** A program is fine exactly when the semantic check accepts it and the theorems about compiled programs
      cover it, wherever its variables are kept. */
  lemma FineIsSupported(p: Program, layout: Layout)
    ensures FineProgram(p) <==>
      && Supported(p, layout) && PhaseAccepted(Meaning.Actions(p.begin))
      && PhaseAccepted(Meaning.Items(p.items)) && PhaseAccepted(Meaning.Actions(p.end))
  {
    hide FineAction, FineItem, ActionSafe, ActionJoins, OrderlyAction, ActionAccepted, ItemSafe, ItemJoins, OrderlyItem;
    forall a
      ensures FineAction(a, false) <==>
        ActionSafe(Some(a)) && ActionJoins(Some(a)) && OrderlyAction(a) && ActionAccepted(a, false)
    {
      FineActionIs(a, false);
    }
    forall i
      ensures FineItem(i) <==>
        && ItemSafe(i) && ItemJoins(i) && OrderlyItem(i)
        && (i.action.Some? ==> ActionAccepted(i.action.value, true))
    {
      FineItemIs(i);
    }
    if FineProgram(p) { AcceptedIsSupported(p, layout); }
  }
}

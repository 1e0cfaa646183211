/** What every lowering keeps: each label is placed once, each temporary defined once, each
    branch aims at a label of its own or one it was given, and every local name has a cell of
    its own that the entry block clears. */
module WellFormed {
  import opened Options
  import opened Syntax
  import opened Meaning
  import opened Machine
  import LS = LoweringSpec

  type Emitter = LS.Emitter

  function Defined(i: Instr): Option<Temp> {
    match i
    case SlotPointer(t, _) => Some(t)
    case Load(t, _) => Some(t)
    case Binary(t, _, _, _) => Some(t)
    case CallTrunc(t, _) => Some(t)
    case CallPow(t, _, _) => Some(t)
    case FCmp(t, _, _, _) => Some(t)
    case Select(t, _, _, _) => Some(t)
    case BoolToDouble(t, _) => Some(t)
    case Invert(t, _) => Some(t)
    case Phi(t, _, _, _, _) => Some(t)
    case CallBuiltin(t, _) => Some(t)
    case FormatNumber(t, _) => Some(t)
    case Capture(t, _) => Some(t)
    case CompareValues(t, _, _, _, _, _) => Some(t)
    case LoadRecord(t) => Some(t)
    case DoubleToInt(t, _) => Some(t)
    case _ => None
  }

  predicate AimsAt(i: Instr, l: Label) {
    (i.Br? && i.target == l) || (i.CondBr? && (i.onTrue == l || i.onFalse == l))
  }

  /** How often a stretch of code places the label `l`, defines the temporary `t` and branches to `l`. */
  datatype Tally = Tally(marks: nat, defs: nat, aims: nat)

  function Count(code: seq<Instr>, l: Label, t: Temp): Tally {
    if code == [] then Tally(0, 0, 0) else
    var i, before := code[|code| - 1], Count(code[..|code| - 1], l, t);
    Tally(
      before.marks + (if i == Mark(l) then 1 else 0),
      before.defs + (if Defined(i) == Some(t) then 1 else 0),
      before.aims + (if AimsAt(i, l) then 1 else 0))
  }

  function CountOf(em: Emitter, l: Label, t: Temp): (r: Tally) {
    Count(em.code, l, t)
  }

  function One(b: bool): nat {
    if b then 1 else 0
  }

  lemma CountPut(em: Emitter, i: Instr, l: Label, t: Temp)
    ensures
      var a, b := CountOf(em, l, t), CountOf(em.Put(i), l, t);
      b == Tally(a.marks + One(i == Mark(l)), a.defs + One(Defined(i) == Some(t)), a.aims + One(AimsAt(i, l)))
  {
    assert em.Put(i).code[..|em.code|] == em.code;
  }

  // ----- The invariant of the emitter -----

  /** Local names have distinct cells, all allocated, and the entry block clears every cell. */
  ghost predicate Sound(locals: set<string>, em: Emitter) {
    && em.slots.Keys <= locals
    && (forall x, y :: x in em.slots && y in em.slots && em.slots[x] == em.slots[y] ==> x == y)
    && (forall x :: x in em.slots ==> em.slots[x] < em.nextTemp && em.slots[x] in em.cells)
    && |em.entry| == |em.cells|
    && (forall i :: 0 <= i < |em.entry| ==> em.entry[i] == Store(Literal(ZERO), Cell(em.cells[i])))
  }

  /** The labels and temporaries taken between `em` and `later` are each used up exactly once,
      and the only other labels branched to are those in `outside`. */
  ghost predicate Accounts(em: Emitter, later: Emitter, l: Label, t: Temp, outside: set<Label>) {
    var a, b := CountOf(em, l, t), CountOf(later, l, t);
    && em.nextLabel <= later.nextLabel && em.nextTemp <= later.nextTemp
    && b.marks == a.marks + One(em.nextLabel <= l < later.nextLabel)
    && b.defs + multiset(later.cells)[t] == a.defs + multiset(em.cells)[t] + One(em.nextTemp <= t < later.nextTemp)
    && a.aims <= b.aims && (a.aims < b.aims ==> em.nextLabel <= l < later.nextLabel || l in outside)
  }

  ghost predicate Lowers(locals: set<string>, em: Emitter, later: Emitter, l: Label, t: Temp, outside: set<Label>) {
    Accounts(em, later, l, t, outside) && (Sound(locals, em) ==> Sound(locals, later))
  }

  lemma SoundPut(locals: set<string>, em: Emitter, i: Instr, labels: nat, temps: nat)
    ensures Sound(locals, em) ==> Sound(locals, em.Put(i))
    ensures Sound(locals, em) ==> Sound(locals, em.Labels(labels)) && Sound(locals, em.Temps(temps))
    ensures Sound(locals, em) ==> Sound(locals, em.Temps(temps).Labels(labels))
  {
  }

  lemma LowersThen(locals: set<string>, em: Emitter, mid: Emitter, later: Emitter, l: Label, t: Temp,
                   outside: set<Label>, inner: set<Label>)
    requires Lowers(locals, em, mid, l, t, outside) && Lowers(locals, mid, later, l, t, inner)
    requires forall x :: x in inner ==> x in outside || em.nextLabel <= x < mid.nextLabel
    ensures Lowers(locals, em, later, l, t, outside)
  {
  }

  lemma LowersLast(locals: set<string>, em: Emitter, i: Instr, l: Label, t: Temp)
    requires Defined(i) == Some(em.nextTemp)
    ensures Lowers(locals, em, LS.Last(i, em).em, l, t, {})
  {
    CountPut(em.Temps(1), i, l, t);
    SoundPut(locals, em, i, 0, 1);
    SoundPut(locals, em.Temps(1), i, 0, 0);
  }

  /** Effects and stores define nothing and branch nowhere. */
  lemma LowersPlain(locals: set<string>, em: Emitter, i: Instr, l: Label, t: Temp)
    requires Defined(i) == None && !i.Mark? && !i.Br? && !i.CondBr?
    ensures Lowers(locals, em, em.Put(i), l, t, {})
  {
    CountPut(em, i, l, t);
    SoundPut(locals, em, i, 0, 0);
  }

  lemma LowersBr(locals: set<string>, em: Emitter, target: Label, l: Label, t: Temp)
    ensures Lowers(locals, em, em.Put(Br(target)), l, t, {target})
  {
    CountPut(em, Br(target), l, t);
    SoundPut(locals, em, Br(target), 0, 0);
  }

  lemma LowersAddress(locals: set<string>, x: string, em: Emitter, l: Label, t: Temp)
    ensures Lowers(locals, em, LS.VariableAddress(locals, x, em).em, l, t, {})
  {
    if x !in em.slots && x !in locals { LowersLast(locals, em, SlotPointer(em.nextTemp, x), l, t); }
  }

  // ----- Labels and temporaries still to be used up -----

  /** Between `em` and `mid` the labels and temporaries taken are each used up exactly once, except
      those in `labels` and `temps`, whose turn is still to come. */
  ghost predicate Owes(locals: set<string>, em: Emitter, mid: Emitter, labels: set<Label>, temps: set<Temp>,
                       l: Label, t: Temp, outside: set<Label>) {
    var a, b := CountOf(em, l, t), CountOf(mid, l, t);
    && em.nextLabel <= mid.nextLabel && em.nextTemp <= mid.nextTemp
    && (l in labels ==> em.nextLabel <= l < mid.nextLabel) && (t in temps ==> em.nextTemp <= t < mid.nextTemp)
    && b.marks == a.marks + One(em.nextLabel <= l < mid.nextLabel && l !in labels)
    && b.defs + multiset(mid.cells)[t] == a.defs + multiset(em.cells)[t] + One(em.nextTemp <= t < mid.nextTemp
        && t !in temps)
    && a.aims <= b.aims && (a.aims < b.aims ==> em.nextLabel <= l < mid.nextLabel || l in outside)
    && (Sound(locals, em) ==> Sound(locals, mid))
  }

  lemma OwesNothing(locals: set<string>, em: Emitter, mid: Emitter, labels: set<Label>, temps: set<Temp>,
                    l: Label, t: Temp, outside: set<Label>)
    requires l !in labels && t !in temps
    ensures Owes(locals, em, mid, labels, temps, l, t, outside) <==> Lowers(locals, em, mid, l, t, outside)
  {
    hide Sound, Count, CountOf;
  }

  lemma OwesTaken(locals: set<string>, em: Emitter, mid: Emitter, labels: nat, temps: nat, had: set<Label>,
                  owed: set<Label>, left: set<Temp>,
                  l: Label, t: Temp, outside: set<Label>)
    requires Owes(locals, em, mid, had, {}, l, t, outside)
    requires l in owed <==> l in had || mid.nextLabel <= l < mid.nextLabel + labels
    requires t in left <==> mid.nextTemp <= t < mid.nextTemp + temps
    ensures Owes(locals, em, mid.Temps(temps).Labels(labels), owed, left, l, t, outside)
    ensures em.nextLabel <= mid.nextLabel && em.nextTemp <= mid.nextTemp
  {
    hide Sound, Count;
    SoundPut(locals, mid, Ret, labels, temps);
    assert CountOf(mid.Temps(temps).Labels(labels), l, t) == CountOf(mid, l, t);
  }

  /** The end of one block, and the next one begun under a label still owed. */
  lemma OwesBlock(locals: set<string>, em: Emitter, mid: Emitter, i: Instr, next: Label, had: set<Label>,
                  owed: set<Label>, temps: set<Temp>,
                  l: Label, t: Temp, outside: set<Label>)
    requires Owes(locals, em, mid, had, temps, l, t, outside) && (i.Br? || i.CondBr?)
    requires (l == next ==> l in had) && (l in owed <==> l in had && l != next)
    requires AimsAt(i, l) ==> em.nextLabel <= l < mid.nextLabel || l in outside
    ensures Owes(locals, em, mid.Put(i).Put(Mark(next)), owed, temps, l, t, outside)
  {
    hide Sound, Count, CountOf;
    CountPut(mid, i, l, t);
    CountPut(mid.Put(i), Mark(next), l, t);
    SoundPut(locals, mid, i, 0, 0);
    SoundPut(locals, mid.Put(i), Mark(next), 0, 0);
  }

  /** A block begun where the code before it has left for good. */
  lemma OwesMark(locals: set<string>, em: Emitter, mid: Emitter, next: Label, l: Label, t: Temp, outside: set<Label>)
    requires Owes(locals, em, mid, {next}, {}, l, t, outside)
    ensures Lowers(locals, em, mid.Put(Mark(next)), l, t, outside)
  {
    hide Sound, Count, CountOf;
    CountPut(mid, Mark(next), l, t);
    SoundPut(locals, mid, Mark(next), 0, 0);
  }

  lemma OwesIn(locals: set<string>, em: Emitter, mid: Emitter, labels: set<Label>, temps: set<Temp>,
               l: Label, t: Temp, outside: set<Label>)
    requires Owes(locals, em, mid, labels, temps, l, t, outside)
    ensures l in labels ==> em.nextLabel <= l < mid.nextLabel
  {
  }

  /** An instruction that defines a temporary still owed. */
  lemma OwesDefines(locals: set<string>, em: Emitter, mid: Emitter, i: Instr, x: Temp, labels: set<Label>,
                    had: set<Temp>, owed: set<Temp>,
                    l: Label, t: Temp, outside: set<Label>)
    requires Owes(locals, em, mid, labels, had, l, t, outside) && Defined(i) == Some(x)
    requires (t == x ==> t in had) && (t in owed <==> t in had && t != x)
    ensures Owes(locals, em, mid.Put(i), labels, owed, l, t, outside)
  {
    hide Sound, Count, CountOf;
    CountPut(mid, i, l, t);
    SoundPut(locals, mid, i, 0, 0);
  }

  lemma OwesThen(locals: set<string>, em: Emitter, mid: Emitter, later: Emitter, labels: set<Label>, temps: set<Temp>,
                 l: Label, t: Temp, outside: set<Label>, inner: set<Label>)
    requires Owes(locals, em, mid, labels, temps, l, t, outside) && Lowers(locals, mid, later, l, t, inner)
    requires l in inner ==> l in outside || em.nextLabel <= l < mid.nextLabel
    ensures Owes(locals, em, later, labels, temps, l, t, outside) && mid.nextLabel <= later.nextLabel
  {
    hide Sound, Count, CountOf;
  }

  lemma LowersRemainder(locals: set<string>, em: Emitter, q: Temp, u: Temp, p: Temp, d: Temp,
                        a: Operand, b: Operand, l: Label, t: Temp)
    requires
      var n := em.nextTemp;
      (q == n && u == n + 1 && p == n + 2 && d == n + 3) || (q == n + 1 && u == n + 2 && p == n + 3 && d == n)
    ensures Lowers(locals, em, LS.Remainder(em.Temps(4), q, u, p, d, a, b), l, t, {})
  {
    hide Owes, Lowers, LS.Emitter.Put;
    var em0 := em.Temps(4);
    assert em0.Labels(0) == em0;
    var em1 := em0.Put(Binary(q, FDiv, a, b));
    var em2 := em1.Put(CallTrunc(u, Use(q)));
    var em3 := em2.Put(Binary(p, FMul, Use(u), b));
    LowersSelf(locals, em, l, t);
    OwesNothing(locals, em, em, {}, {}, l, t, {});
    OwesTaken(locals, em, em, 0, 4, {}, {}, {q, u, p, d}, l, t, {});
    OwesDefines(locals, em, em0, Binary(q, FDiv, a, b), q, {}, {q, u, p, d}, {u, p, d}, l, t, {});
    OwesDefines(locals, em, em1, CallTrunc(u, Use(q)), u, {}, {u, p, d}, {p, d}, l, t, {});
    OwesDefines(locals, em, em2, Binary(p, FMul, Use(u), b), p, {}, {p, d}, {d}, l, t, {});
    OwesDefines(locals, em, em3, Binary(d, FSub, a, Use(p)), d, {}, {d}, {}, l, t, {});
    OwesNothing(locals, em, em3.Put(Binary(d, FSub, a, Use(p))), {}, {}, l, t, {});
  }

  lemma LowersArith(locals: set<string>, op: ArithOp, a: Operand, b: Operand, em: Emitter, l: Label, t: Temp)
    ensures Lowers(locals, em, LS.LowerArith(op, a, b, em).em, l, t, {})
    ensures Lowers(locals, em, LS.Combine(op, a, b, em).em, l, t, {})
  {
    hide Sound, Count;
    var n := em.nextTemp;
    if op.Mod? {
      LowersRemainder(locals, em, n, n + 1, n + 2, n + 3, a, b, l, t);
      LowersRemainder(locals, em, n + 1, n + 2, n + 3, n, a, b, l, t);
    } else {
      var i := match op case Add => Binary(n, FAdd, a, b) case Sub => Binary(n, FSub, a, b)
          case Mul => Binary(n, FMul, a, b)
        case Div => Binary(n, FDiv, a, b) case _ => CallPow(n, a, b);
      LowersLast(locals, em, i, l, t);
    }
  }

  lemma LowersStep(locals: set<string>, a: LS.Addressed, up: bool, returnOld: bool, l: Label, t: Temp)
    ensures Lowers(locals, a.em, LS.StepBy(a, up, returnOld).em, l, t, {})
  {
    hide Owes, Lowers, LS.Emitter.Put;
    var n := a.em.nextTemp;
    var em0 := a.em.Temps(2);
    assert em0.Labels(0) == em0;
    var em1 := em0.Put(Load(n, a.address));
    var i := Binary(n + 1, if up then FAdd else FSub, Use(n), Literal(ONE));
    LowersSelf(locals, a.em, l, t);
    OwesNothing(locals, a.em, a.em, {}, {}, l, t, {});
    OwesTaken(locals, a.em, a.em, 0, 2, {}, {}, {n, n + 1}, l, t, {});
    OwesDefines(locals, a.em, em0, Load(n, a.address), n, {}, {n, n + 1}, {n + 1}, l, t, {});
    OwesDefines(locals, a.em, em1, i, n + 1, {}, {n + 1}, {}, l, t, {});
    OwesNothing(locals, a.em, em1.Put(i), {}, {}, l, t, {});
    LowersPlain(locals, em1.Put(i), Store(Use(n + 1), a.address), l, t);
    LowersThen(locals, a.em, em1.Put(i), em1.Put(i).Put(Store(Use(n + 1), a.address)), l, t, {}, {});
  }

  // ----- Expressions -----

  lemma LowersJoin(locals: set<string>, em: Emitter, test: LS.Lowered, tv: LS.Lowered,
                   fv: LS.Lowered, l: Label, t: Temp)
    requires
      var m := test.em.nextLabel;
      && Lowers(locals, em, test.em, l, t, {})
        && Lowers(locals, LS.Fork(test.operand, m, m + 1, test.em.Labels(3)), tv.em, l, t, {})
      && Lowers(locals, LS.Close(m + 2, m + 1, tv.em), fv.em, l, t, {})
    ensures var m := test.em.nextLabel;
      Lowers(locals, em, LS.Join(tv.operand, m, fv.operand, m + 1, m + 2, fv.em).em, l, t, {})
  {
    hide Owes, Lowers, LS.Emitter.Put, LS.Extends;
    var m := test.em.nextLabel;
    var ready := test.em.Labels(3);
    assert test.em.Temps(0).Labels(3) == ready;
    OwesNothing(locals, em, test.em, {}, {}, l, t, {});
    OwesTaken(locals, em, test.em, 3, 0, {}, {m, m + 1, m + 2}, {}, l, t, {});
    OwesBlock(locals, em, ready, CondBr(test.operand, m, m + 1), m, {m, m + 1, m + 2}, {m + 1, m + 2}, {}, l, t, {});
    OwesThen(locals, em, LS.Fork(test.operand, m, m + 1, ready), tv.em, {m + 1, m + 2}, {}, l, t, {}, {});
    OwesBlock(locals, em, tv.em, Br(m + 2), m + 1, {m + 1, m + 2}, {m + 2}, {}, l, t, {});
    OwesThen(locals, em, LS.Close(m + 2, m + 1, tv.em), fv.em, {m + 2}, {}, l, t, {}, {});
    OwesBlock(locals, em, fv.em, Br(m + 2), m + 2, {m + 2}, {}, {}, l, t, {});
    var closed := LS.Close(m + 2, m + 2, fv.em);
    OwesNothing(locals, em, closed, {}, {}, l, t, {});
    var i := Phi(closed.nextTemp, tv.operand, m, fv.operand, m + 1);
    LowersLast(locals, closed, i, l, t);
    LowersThen(locals, em, closed, LS.Last(i, closed).em, l, t, {}, {});
  }

  lemma LowersEndAnd(locals: set<string>, em: Emitter, a: LS.Lowered, b: LS.Lowered, l: Label, t: Temp)
    requires Lowers(locals, em, a.em, l, t, {}) && Lowers(locals, LS.BeginAnd(a), b.em, l, t, {})
    ensures Lowers(locals, em, LS.EndAnd(a, b).em, l, t, {})
  {
    hide Owes, Lowers, LS.Emitter.Put, LS.Extends;
    var m, x := a.em.nextLabel, a.em.nextTemp;
    var value := LS.Close(m + 1, m + 1, b.em);
    var no := LS.Close(m + 3, m + 2, value);
    var end := LS.Close(m + 3, m + 3, no);
    var i := Phi(x, BoolLiteral(false), m + 2, b.operand, m + 1);
    OwesNothing(locals, em, a.em, {}, {}, l, t, {});
    OwesTaken(locals, em, a.em, 4, 1, {}, {m, m + 1, m + 2, m + 3}, {x}, l, t, {});
    OwesBlock(locals, em, a.em.Temps(1).Labels(4), CondBr(a.operand, m, m + 2), m, {m, m + 1, m + 2, m + 3},
              {m + 1, m + 2, m + 3}, {x}, l, t, {});
    OwesThen(locals, em, LS.BeginAnd(a), b.em, {m + 1, m + 2, m + 3}, {x}, l, t, {}, {});
    OwesBlock(locals, em, b.em, Br(m + 1), m + 1, {m + 1, m + 2, m + 3}, {m + 2, m + 3}, {x}, l, t, {});
    OwesBlock(locals, em, value, Br(m + 3), m + 2, {m + 2, m + 3}, {m + 3}, {x}, l, t, {});
    OwesBlock(locals, em, no, Br(m + 3), m + 3, {m + 3}, {}, {x}, l, t, {});
    OwesDefines(locals, em, end, i, x, {}, {x}, {}, l, t, {});
    OwesNothing(locals, em, end.Put(i), {}, {}, l, t, {});
  }

  lemma LowersEndOr(locals: set<string>, em: Emitter, a: LS.Lowered, b: LS.Lowered, l: Label, t: Temp)
    requires Lowers(locals, em, a.em, l, t, {}) && Lowers(locals, LS.BeginOr(a), b.em, l, t, {})
    ensures Lowers(locals, em, LS.EndOr(a, b).em, l, t, {})
  {
    hide Owes, Lowers, LS.Emitter.Put, LS.Extends;
    var m, x := a.em.nextLabel, a.em.nextTemp;
    var ready := a.em.Temps(1).Labels(4);
    var fork := LS.Fork(a.operand, m, m + 1, ready);
    var value := LS.Close(m + 2, m + 2, b.em);
    var end := LS.Close(m + 3, m + 3, value);
    var i := Phi(x, BoolLiteral(true), m, b.operand, m + 2);
    OwesNothing(locals, em, a.em, {}, {}, l, t, {});
    OwesTaken(locals, em, a.em, 4, 1, {}, {m, m + 1, m + 2, m + 3}, {x}, l, t, {});
    OwesBlock(locals, em, ready, CondBr(a.operand, m, m + 1), m, {m, m + 1, m + 2, m + 3},
              {m + 1, m + 2, m + 3}, {x}, l, t, {});
    OwesBlock(locals, em, fork, Br(m + 3), m + 1, {m + 1, m + 2, m + 3}, {m + 2, m + 3}, {x}, l, t, {});
    OwesThen(locals, em, LS.BeginOr(a), b.em, {m + 2, m + 3}, {x}, l, t, {}, {});
    OwesBlock(locals, em, b.em, Br(m + 2), m + 2, {m + 2, m + 3}, {m + 3}, {x}, l, t, {});
    OwesBlock(locals, em, value, Br(m + 3), m + 3, {m + 3}, {}, {x}, l, t, {});
    OwesDefines(locals, em, end, i, x, {}, {x}, {}, l, t, {});
    OwesNothing(locals, em, end.Put(i), {}, {}, l, t, {});
  }

  lemma {:induction false} LowersNumber(locals: set<string>, e: Expr, em: Emitter, l: Label, t: Temp)
    ensures Lowers(locals, em, LS.Number(locals, e, em).em, l, t, {})
    decreases e, if LS.IsLogical(e) then 1 else 0, 1
  {
    hide Sound, Count, LS.VariableAddress, LS.LowerArith, LS.Combine, LS.StepBy, LS.Join, LS.Fork, LS.Close, LS.Last;
    hide Accounts, LS.Extends, LS.Condition;
    LowersSelf(locals, em, l, t);
    match e
    case Number(_) =>
    case Name(x) =>
      var a := LS.VariableAddress(locals, x, em);
      LowersAddress(locals, x, em, l, t);
      LowersLast(locals, a.em, Load(a.em.nextTemp, a.address), l, t);
      LowersThen(locals, em, a.em, LS.Number(locals, e, em).em, l, t, {}, {});
    case Builtin(which) => LowersLast(locals, em, CallBuiltin(em.nextTemp, which), l, t);
    case Assign(_, _, _) => LowersAssign(locals, e, em, l, t);
    case Sign(UPlus, operand) => LowersNumber(locals, operand, em, l, t);
    case Sign(UMinus, operand) =>
      var r := LS.Number(locals, operand, em);
      LowersNumber(locals, operand, em, l, t);
      LowersLast(locals, r.em, Binary(r.em.nextTemp, FSub, Literal(ZERO), r.operand), l, t);
      LowersThen(locals, em, r.em, LS.Number(locals, e, em).em, l, t, {}, {});
    case Sign(Not, operand) =>
      var r := LS.Condition(locals, operand, em);
      LowersCondition(locals, operand, em, l, t);
      LowersLast(locals, r.em, Select(r.em.nextTemp, r.operand, Literal(ZERO), Literal(ONE)), l, t);
      LowersThen(locals, em, r.em, LS.Number(locals, e, em).em, l, t, {}, {});
    case Increment(x, up, returnOld) =>
      var a := LS.VariableAddress(locals, x, em);
      LowersAddress(locals, x, em, l, t);
      LowersStep(locals, a, up, returnOld, l, t);
      LowersThen(locals, em, a.em, LS.Number(locals, e, em).em, l, t, {}, {});
    case Arith(op, left, right) =>
      var a := LS.Number(locals, left, em);
      var b := LS.Number(locals, right, a.em);
      LowersNumber(locals, left, em, l, t);
      LowersNumber(locals, right, a.em, l, t);
      LowersArith(locals, op, a.operand, b.operand, b.em, l, t);
      LowersThen(locals, em, a.em, b.em, l, t, {}, {});
      LowersThen(locals, em, b.em, LS.Number(locals, e, em).em, l, t, {}, {});
    case Conditional(_, _, _) =>
      if BranchesToJoin(e) { LowersNumberJoin(locals, e, em, l, t); } else { LowersNumberChoice(locals, e, em, l, t); }
    case Compare(_, _, _) => LowersNumberFromBool(locals, e, em, l, t);
    case And(_, _) => LowersNumberFromBool(locals, e, em, l, t);
    case Or(_, _) => LowersNumberFromBool(locals, e, em, l, t);
  }

  lemma LowersSelf(locals: set<string>, em: Emitter, l: Label, t: Temp)
    ensures Lowers(locals, em, em, l, t, {})
  {
  }

  lemma {:induction false} LowersNumberFromBool(locals: set<string>, e: Expr, em: Emitter, l: Label, t: Temp)
    requires LS.IsLogical(e)
    ensures Lowers(locals, em, LS.Number(locals, e, em).em, l, t, {})
    decreases e, 1, 0
  {
    hide Sound, Count, LS.Last, Accounts, LS.Extends, LS.Condition;
    var r := LS.Condition(locals, e, em);
    LowersCondition(locals, e, em, l, t);
    LowersLast(locals, r.em, BoolToDouble(r.em.nextTemp, r.operand), l, t);
    LowersThen(locals, em, r.em, LS.NumberFromBool(r).em, l, t, {}, {});
  }

  lemma {:induction false} LowersAssign(locals: set<string>, e: Expr, em: Emitter, l: Label, t: Temp)
    requires e.Assign?
    ensures Lowers(locals, em, LS.Number(locals, e, em).em, l, t, {})
    decreases e, 0, 0
  {
    hide Sound, Count, LS.VariableAddress, LS.Combine, LS.Last, Accounts, LS.Extends, LS.Condition;
    var a := LS.VariableAddress(locals, e.target, em);
    var loaded := LS.Last(Load(a.em.nextTemp, a.address), a.em);
    var r := LS.Number(locals, e.right, loaded.em);
    var v := if e.aop.Plain? then r else LS.Combine(e.aop.op, Use(a.em.nextTemp), r.operand, r.em);
    LowersAddress(locals, e.target, em, l, t);
    LowersLast(locals, a.em, Load(a.em.nextTemp, a.address), l, t);
    LowersNumber(locals, e.right, loaded.em, l, t);
    LowersSelf(locals, r.em, l, t);
    if e.aop.Compound? { LowersArith(locals, e.aop.op, Use(a.em.nextTemp), r.operand, r.em, l, t); }
    LowersPlain(locals, v.em, Store(v.operand, a.address), l, t);
    LowersThen(locals, em, a.em, loaded.em, l, t, {}, {});
    LowersThen(locals, em, loaded.em, r.em, l, t, {}, {});
    LowersThen(locals, em, r.em, v.em, l, t, {}, {});
    LowersThen(locals, em, v.em, LS.Number(locals, e, em).em, l, t, {}, {});
  }

  lemma {:induction false} LowersNumberJoin(locals: set<string>, e: Expr, em: Emitter, l: Label, t: Temp)
    requires e.Conditional? && BranchesToJoin(e)
    ensures Lowers(locals, em, LS.Number(locals, e, em).em, l, t, {})
    decreases e, if LS.IsLogical(e) then 1 else 0, 0
  {
    hide Lowers, LS.Join, LS.Fork, LS.Close, LS.Extends;
    var test := LS.Condition(locals, e.test, em);
    var m := test.em.nextLabel;
    var fork := LS.Fork(test.operand, m, m + 1, test.em.Labels(3));
    var tv := LS.Number(locals, e.ifTrue, fork);
    var mid := LS.Close(m + 2, m + 1, tv.em);
    var fv := LS.Number(locals, e.ifFalse, mid);
    LowersCondition(locals, e.test, em, l, t);
    LowersNumber(locals, e.ifTrue, fork, l, t);
    LowersNumber(locals, e.ifFalse, mid, l, t);
    LowersJoin(locals, em, test, tv, fv, l, t);
  }

  lemma {:induction false} LowersNumberChoice(locals: set<string>, e: Expr, em: Emitter, l: Label, t: Temp)
    requires e.Conditional? && !BranchesToJoin(e)
    ensures Lowers(locals, em, LS.Number(locals, e, em).em, l, t, {})
    decreases e, if LS.IsLogical(e) then 1 else 0, 0
  {
    hide Sound, Count, LS.Last, Accounts, LS.Extends;
    var test := LS.Condition(locals, e.test, em);
    var tv := LS.Number(locals, e.ifTrue, test.em);
    var fv := LS.Number(locals, e.ifFalse, tv.em);
    LowersCondition(locals, e.test, em, l, t);
    LowersNumber(locals, e.ifTrue, test.em, l, t);
    LowersNumber(locals, e.ifFalse, tv.em, l, t);
    LowersLast(locals, fv.em, Select(fv.em.nextTemp, test.operand, tv.operand, fv.operand), l, t);
    LowersThen(locals, em, test.em, tv.em, l, t, {}, {});
    LowersThen(locals, em, tv.em, fv.em, l, t, {}, {});
    LowersThen(locals, em, fv.em, LS.Choose(test.operand, tv.operand, fv.operand, fv.em).em, l, t, {}, {});
  }

  lemma {:induction false} LowersCondition(locals: set<string>, e: Expr, em: Emitter, l: Label, t: Temp)
    ensures Lowers(locals, em, LS.Condition(locals, e, em).em, l, t, {})
    decreases e, if LS.IsLogical(e) then 0 else 1, 2
  {
    hide Sound, Count, LS.Join, LS.Fork, LS.Close, LS.Last, Accounts, LS.Extends, LS.Number, LS.ComparedTexts;
    hide LS.BeginAnd, LS.EndAnd, LS.BeginOr, LS.EndOr;
    match e
    case Compare(op, left, right) =>
      if ComparesNumbers(e) {
        var a := LS.Number(locals, left, em);
        var b := LS.Number(locals, right, a.em);
        LowersNumber(locals, left, em, l, t);
        LowersNumber(locals, right, a.em, l, t);
        LowersLast(locals, b.em, FCmp(b.em.nextTemp, op, a.operand, b.operand), l, t);
        LowersThen(locals, em, a.em, b.em, l, t, {}, {});
        LowersThen(locals, em, b.em, LS.Condition(locals, e, em).em, l, t, {}, {});
      } else {
        LowersTexts(locals, e, em, l, t);
      }
    case And(_, _) => LowersAnd(locals, e, em, l, t);
    case Or(_, _) => LowersOr(locals, e, em, l, t);
    case Conditional(_, _, _) =>
      if BranchesToJoin(e) {
        LowersConditionJoin(locals, e, em, l, t);
      } else {
        LowersConditionChoice(locals, e, em, l, t);
      }
    case _ =>
      var r := LS.Number(locals, e, em);
      LowersNumber(locals, e, em, l, t);
      LowersLast(locals, r.em, FCmp(r.em.nextTemp, NotEqual, r.operand, Literal(ZERO)), l, t);
      LowersThen(locals, em, r.em, LS.Condition(locals, e, em).em, l, t, {}, {});
  }

  lemma {:induction false} LowersTexts(locals: set<string>, e: Expr, em: Emitter, l: Label, t: Temp)
    requires e.Compare?
    ensures Lowers(locals, em, LS.ComparedTexts(locals, e, em).em, l, t, {})
    decreases e, 0, 1
  {
    hide Sound, Count, LS.Last, Accounts, LS.Extends, LS.Number, LS.CapturedText;
    var lt := LS.CapturedText(locals, e.left, em);
    var a := LS.Number(locals, e.left, lt.em);
    var rt := LS.CapturedText(locals, e.right, a.em);
    var b := LS.Number(locals, e.right, rt.em);
    LowersCapturedText(locals, e.left, em, l, t);
    LowersNumber(locals, e.left, lt.em, l, t);
    LowersCapturedText(locals, e.right, a.em, l, t);
    LowersNumber(locals, e.right, rt.em, l, t);
    LowersLast(locals, b.em, CompareValues(b.em.nextTemp, lt.operand, a.operand, rt.operand, b.operand, e.cop), l, t);
    LowersThen(locals, em, lt.em, a.em, l, t, {}, {});
    LowersThen(locals, em, a.em, rt.em, l, t, {}, {});
    LowersThen(locals, em, rt.em, b.em, l, t, {}, {});
    LowersThen(locals, em, b.em, LS.ComparedTexts(locals, e, em).em, l, t, {}, {});
  }

  lemma {:induction false} LowersAnd(locals: set<string>, e: Expr, em: Emitter, l: Label, t: Temp)
    requires e.And?
    ensures Lowers(locals, em, LS.Condition(locals, e, em).em, l, t, {})
    decreases e, 0, 0
  {
    hide Lowers, LS.Extends, LS.BeginAnd, LS.EndAnd;
    var a := LS.Condition(locals, e.left, em);
    LowersCondition(locals, e.left, em, l, t);
    LowersCondition(locals, e.right, LS.BeginAnd(a), l, t);
    LowersEndAnd(locals, em, a, LS.Condition(locals, e.right, LS.BeginAnd(a)), l, t);
  }

  lemma {:induction false} LowersOr(locals: set<string>, e: Expr, em: Emitter, l: Label, t: Temp)
    requires e.Or?
    ensures Lowers(locals, em, LS.Condition(locals, e, em).em, l, t, {})
    decreases e, 0, 0
  {
    hide Lowers, LS.Extends, LS.BeginOr, LS.EndOr;
    var a := LS.Condition(locals, e.left, em);
    LowersCondition(locals, e.left, em, l, t);
    LowersCondition(locals, e.right, LS.BeginOr(a), l, t);
    LowersEndOr(locals, em, a, LS.Condition(locals, e.right, LS.BeginOr(a)), l, t);
  }

  lemma {:induction false} LowersConditionJoin(locals: set<string>, e: Expr, em: Emitter, l: Label, t: Temp)
    requires e.Conditional? && BranchesToJoin(e)
    ensures Lowers(locals, em, LS.Condition(locals, e, em).em, l, t, {})
    decreases e, if LS.IsLogical(e) then 0 else 1, 0
  {
    hide Lowers, LS.Join, LS.Fork, LS.Close, LS.Extends;
    var test := LS.Condition(locals, e.test, em);
    var m := test.em.nextLabel;
    var fork := LS.Fork(test.operand, m, m + 1, test.em.Labels(3));
    var tv := LS.Condition(locals, e.ifTrue, fork);
    var mid := LS.Close(m + 2, m + 1, tv.em);
    var fv := LS.Condition(locals, e.ifFalse, mid);
    LowersCondition(locals, e.test, em, l, t);
    LowersCondition(locals, e.ifTrue, fork, l, t);
    LowersCondition(locals, e.ifFalse, mid, l, t);
    LowersJoin(locals, em, test, tv, fv, l, t);
  }

  lemma {:induction false} LowersConditionChoice(locals: set<string>, e: Expr, em: Emitter, l: Label, t: Temp)
    requires e.Conditional? && !BranchesToJoin(e)
    ensures Lowers(locals, em, LS.Condition(locals, e, em).em, l, t, {})
    decreases e, if LS.IsLogical(e) then 0 else 1, 0
  {
    hide Sound, Count, LS.Last, Accounts, LS.Extends;
    var test := LS.Condition(locals, e.test, em);
    var tv := LS.Condition(locals, e.ifTrue, test.em);
    var fv := LS.Condition(locals, e.ifFalse, tv.em);
    LowersCondition(locals, e.test, em, l, t);
    LowersCondition(locals, e.ifTrue, test.em, l, t);
    LowersCondition(locals, e.ifFalse, tv.em, l, t);
    LowersLast(locals, fv.em, Select(fv.em.nextTemp, test.operand, tv.operand, fv.operand), l, t);
    LowersThen(locals, em, test.em, tv.em, l, t, {}, {});
    LowersThen(locals, em, tv.em, fv.em, l, t, {}, {});
    LowersThen(locals, em, fv.em, LS.Choose(test.operand, tv.operand, fv.operand, fv.em).em, l, t, {}, {});
  }

  lemma {:induction false} LowersText(locals: set<string>, e: Expr, em: Emitter, l: Label, t: Temp)
    ensures Lowers(locals, em, LS.TextOf(locals, e, em).em, l, t, {})
    decreases e, 2, 1
  {
    hide Sound, Count, LS.Join, LS.Fork, LS.Close, LS.Last, Accounts, LS.Extends, LS.Number;
    if e.Conditional? {
      LowersTextJoin(locals, e, em, l, t);
    } else {
      var r := LS.Number(locals, e, em);
      LowersNumber(locals, e, em, l, t);
      LowersLast(locals, r.em, FormatNumber(r.em.nextTemp, r.operand), l, t);
      LowersThen(locals, em, r.em, LS.TextOf(locals, e, em).em, l, t, {}, {});
    }
  }

  lemma {:induction false} LowersCapturedText(locals: set<string>, e: Expr, em: Emitter, l: Label, t: Temp)
    ensures Lowers(locals, em, LS.CapturedText(locals, e, em).em, l, t, {})
    decreases e, 3, 0
  {
    hide Sound, Count, LS.Last, Accounts, LS.Extends, LS.TextOf;
    var r := LS.TextOf(locals, e, em);
    LowersText(locals, e, em, l, t);
    LowersLast(locals, r.em, Capture(r.em.nextTemp, r.operand), l, t);
    LowersThen(locals, em, r.em, LS.CapturedText(locals, e, em).em, l, t, {}, {});
  }

  lemma {:induction false} LowersTextJoin(locals: set<string>, e: Expr, em: Emitter, l: Label, t: Temp)
    requires e.Conditional?
    ensures Lowers(locals, em, LS.TextOf(locals, e, em).em, l, t, {})
    decreases e, 2, 0
  {
    hide Lowers, LS.Join, LS.Fork, LS.Close, LS.Extends;
    var test := LS.Condition(locals, e.test, em);
    var m := test.em.nextLabel;
    var fork := LS.Fork(test.operand, m, m + 1, test.em.Labels(3));
    var tv := LS.CapturedText(locals, e.ifTrue, fork);
    var mid := LS.Close(m + 2, m + 1, tv.em);
    var fv := LS.CapturedText(locals, e.ifFalse, mid);
    LowersCondition(locals, e.test, em, l, t);
    LowersCapturedText(locals, e.ifTrue, fork, l, t);
    LowersCapturedText(locals, e.ifFalse, mid, l, t);
    LowersJoin(locals, em, test, tv, fv, l, t);
  }
}

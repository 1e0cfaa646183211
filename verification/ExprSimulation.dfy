/** Emitted expressions compute what the expression means: on every run of the machine the
    operand holds the value, the cells hold the new world, and control has reached the end of
    the emitted code. */
module ExprSimulation {
  import opened Options
  import opened Syntax
  import opened Meaning
  import opened Effects
  import opened Machine
  import LS = LoweringSpec

  type Emitter = LS.Emitter

  // ----- Which ternaries can be joined -----

  /** The emitted number contains a block of its own. */
  predicate NumberForks(e: Expr)
    decreases e, if LS.IsLogical(e) then 1 else 0
  {
    match e
    case Number(_) => false
    case Name(_) => false
    case Builtin(_) => false
    case Assign(_, _, right) => NumberForks(right)
    case Sign(sop, operand) => if sop.Not? then ConditionForks(operand) else NumberForks(operand)
    case Increment(_, _, _) => false
    case Arith(_, l, r) => NumberForks(l) || NumberForks(r)
    case Compare(_, _, _) => ConditionForks(e)
    case And(_, _) => ConditionForks(e)
    case Or(_, _) => ConditionForks(e)
    case Conditional(c, t, f) => BranchesToJoin(e) || ConditionForks(c) || NumberForks(t) || NumberForks(f)
  }

  predicate ConditionForks(e: Expr)
    decreases e, if LS.IsLogical(e) then 0 else 1
  {
    match e
    case Compare(_, l, r) =>
      NumberForks(l) || NumberForks(r) || (!ComparesNumbers(e) && (TextForks(l) || TextForks(r)))
    case And(_, _) => true
    case Or(_, _) => true
    case Conditional(c, t, f) => BranchesToJoin(e) || ConditionForks(c) || ConditionForks(t) || ConditionForks(f)
    case _ => NumberForks(e)
  }

  predicate TextForks(e: Expr)
    decreases e, 2
  {
    e.Conditional? || NumberForks(e)
  }

  /** Every `phi` of a ternary names the block its branch ends in: a joined branch opens no
      block of its own. */
  predicate NumberJoins(e: Expr)
    decreases e, if LS.IsLogical(e) then 1 else 0
  {
    match e
    case Number(_) => true
    case Name(_) => true
    case Builtin(_) => true
    case Assign(_, _, right) => NumberJoins(right)
    case Sign(sop, operand) => if sop.Not? then ConditionJoins(operand) else NumberJoins(operand)
    case Increment(_, _, _) => true
    case Arith(_, l, r) => NumberJoins(l) && NumberJoins(r)
    case Compare(_, _, _) => ConditionJoins(e)
    case And(_, _) => ConditionJoins(e)
    case Or(_, _) => ConditionJoins(e)
    case Conditional(c, t, f) =>
      && ConditionJoins(c) && NumberJoins(t) && NumberJoins(f)
      && (BranchesToJoin(e) ==> !NumberForks(t) && !NumberForks(f))
  }

  predicate ConditionJoins(e: Expr)
    decreases e, if LS.IsLogical(e) then 0 else 1
  {
    match e
    case Compare(_, l, r) =>
      NumberJoins(l) && NumberJoins(r) && (!ComparesNumbers(e) ==> TextJoins(l) && TextJoins(r))
    case And(l, r) => ConditionJoins(l) && ConditionJoins(r)
    case Or(l, r) => ConditionJoins(l) && ConditionJoins(r)
    case Conditional(c, t, f) =>
      && ConditionJoins(c) && ConditionJoins(t) && ConditionJoins(f)
      && (BranchesToJoin(e) ==> !ConditionForks(t) && !ConditionForks(f))
    case _ => NumberJoins(e)
  }

  predicate TextJoins(e: Expr)
    decreases e, 2
  {
    match e
    case Conditional(c, t, f) => ConditionJoins(c) && TextJoins(t) && TextJoins(f) && !TextForks(t) && !TextForks(f)
    case _ => NumberJoins(e)
  }

  // ----- The relation between the world and the machine -----

  /** One lowered function: the code it runs and the cells its local names were given. */
  datatype Setting = Setting(cx: Context, code: seq<Instr>, slots: map<string, Temp>) {
    function Host(): Machine.Host {
      Machine.Host(cx.ops, cx.builtins)
    }

    ghost predicate Good() {
      && cx.reading.AsEmitted?
      && cx.ops.Lawful()
      && slots.Keys <= cx.locals
      && (forall x, y :: x in slots && y in slots && slots[x] == slots[y] ==> x == y)
      && (forall i :: 0 <= i < |code| && code[i].Mark? ==> Find(code, code[i].name) == Some(i))
    }
  }

  /** What has been emitted is the beginning of the function's code. */
  ghost predicate Within(k: Setting, em: Emitter) {
    && em.code <= k.code
    && em.slots.Keys <= k.slots.Keys
    && forall x :: x in em.slots ==> k.slots[x] == em.slots[x]
  }

  ghost predicate Related(k: Setting, w: World, m: Memory) {
    && m.persistent == w.persistent
    && m.output == w.output
    && m.exit == w.exit
    && forall x :: x in k.slots ==> k.slots[x] in m.cells && m.cells[k.slots[x]] == Lookup(w.frame, x)
  }

  ghost predicate At(k: Setting, em: Emitter, w: World, c: Config) {
    c.pc == |em.code| && Related(k, w, c.memory)
  }

  ghost predicate Keeps(c: Config, c': Config, below: Temp) {
    forall t :: t in c.temps && t < below ==> t in c'.temps && c'.temps[t] == c.temps[t]
  }

  ghost predicate Holds(o: Operand, c: Config, v: Value, below: Temp) {
    Resolve(o, c.temps) == Some(v) && (o.Use? ==> o.temp < below)
  }

  ghost predicate Reaches(k: Setting, c: Config, n: nat, c': Config) {
    Run(k.Host(), k.code, c, n) == Some(c')
  }

  lemma {:induction false} Chain(k: Setting, c: Config, n: nat, c1: Config, m: nat, c2: Config)
    requires Reaches(k, c, n, c1) && Reaches(k, c1, m, c2)
    ensures Reaches(k, c, n + m, c2)
  {
    RunThen(k.Host(), k.code, c, n, m);
  }

  lemma {:induction false} ThenStep(k: Setting, c: Config, n: nat, c1: Config, c2: Config)
    requires Reaches(k, c, n, c1) && Step(k.Host(), k.code, c1) == Some(c2)
    ensures Reaches(k, c, n + 1, c2)
  {
    assert Run(k.Host(), k.code, c2, 0) == Some(c2);
    Chain(k, c, n, c1, 1, c2);
  }

  lemma Fetch(k: Setting, em: Emitter, i: Instr)
    requires Within(k, em.Put(i))
    ensures |em.code| < |k.code| && k.code[|em.code|] == i && Within(k, em)
  {
    assert em.Put(i).code[|em.code|] == i;
  }

  lemma Earlier(k: Setting, em: Emitter, later: Emitter)
    requires Within(k, later) && LS.Extends(em, later)
    ensures Within(k, em)
  {
  }

  lemma KeepsThen(c: Config, c1: Config, c2: Config, below: Temp, later: Temp)
    requires Keeps(c, c1, below) && Keeps(c1, c2, later) && below <= later
    ensures Keeps(c, c2, below)
  {
  }

  /** Running one instruction that defines the next temporary. */
  lemma Defines(k: Setting, em: Emitter, i: Instr, w: World, c: Config, t: Temp, v: Value) returns (c': Config)
    requires Within(k, em.Put(i)) && At(k, em, w, c)
    requires Step(k.Host(), k.code, c) == Define(c, t, v)
    ensures c' == c.(pc := c.pc + 1, temps := c.temps[t := v])
    ensures Reaches(k, c, 1, c') && At(k, em.Put(i), w, c') && Keeps(c, c', t)
    ensures Holds(Use(t), c', v, t + 1)
  {
    c' := c.(pc := c.pc + 1, temps := c.temps[t := v]);
    ThenStep(k, c, 0, c, c');
  }

  /** `br label %target` where the block follows later at a known position. */
  lemma Jumps(k: Setting, em: Emitter, target: Label, at: Emitter, w: World, c: Config) returns (c': Config)
    requires k.Good() && Within(k, em.Put(Br(target))) && At(k, em, w, c)
    requires Within(k, at.Put(Mark(target)))
    ensures c' == c.(pc := |at.code| + 1, current := Some(target), previous := c.current)
    ensures Reaches(k, c, 1, c') && At(k, at.Put(Mark(target)), w, c')
  {
    Fetch(k, em, Br(target));
    Fetch(k, at, Mark(target));
    c' := c.(pc := |at.code| + 1, current := Some(target), previous := c.current);
    ThenStep(k, c, 0, c, c');
  }

  /** A conditional branch into one of two blocks at known positions. */
  lemma Branches(k: Setting, em: Emitter, o: Operand, b: bool, l: Label, m: Label, at: Emitter, w: World, c: Config)
    returns (c': Config)
    requires k.Good() && Within(k, em.Put(CondBr(o, l, m))) && At(k, em, w, c)
    requires Resolve(o, c.temps) == Some(B(b))
    requires Within(k, at.Put(Mark(if b then l else m)))
    ensures c' == c.(pc := |at.code| + 1, current := Some(if b then l else m), previous := c.current)
    ensures Reaches(k, c, 1, c') && At(k, at.Put(Mark(if b then l else m)), w, c')
  {
    var target := if b then l else m;
    Fetch(k, em, CondBr(o, l, m));
    Fetch(k, at, Mark(target));
    c' := c.(pc := |at.code| + 1, current := Some(target), previous := c.current);
    ThenStep(k, c, 0, c, c');
  }

  // ----- Variables -----

  /** The address really is the cell of `x`. */
  ghost predicate Addresses(k: Setting, a: Address, x: string, c: Config, below: Temp) {
    match a
    case Cell(t) => x in k.cx.locals && x in k.slots && t == k.slots[x]
    case Slot(p) => x !in k.cx.locals && p < below && p in c.temps && c.temps[p] == SlotOf(x)
  }

  lemma SimAddress(k: Setting, x: string, em: Emitter, w: World, c: Config) returns (n: nat, c': Config)
    requires k.Good() && Within(k, LS.VariableAddress(k.cx.locals, x, em).em) && At(k, em, w, c)
    ensures var r := LS.VariableAddress(k.cx.locals, x, em);
      && Reaches(k, c, n, c') && At(k, r.em, w, c') && Keeps(c, c', em.nextTemp)
      && Addresses(k, r.address, x, c', r.em.nextTemp) && c'.current == c.current
  {
    n, c' := 0, c;
    var r := LS.VariableAddress(k.cx.locals, x, em);
    if x in em.slots {
      assert k.slots[x] == em.slots[x];
    } else if x in k.cx.locals {
      assert r.em.slots[x] == em.nextTemp;
    } else {
      Fetch(k, em.Temps(1), SlotPointer(em.nextTemp, x));
      c' := Defines(k, em.Temps(1), SlotPointer(em.nextTemp, x), w, c, em.nextTemp, SlotOf(x));
      n := 1;
    }
  }

  lemma SimLoad(k: Setting, em: Emitter, t: Temp, a: Address, x: string, w: World, c: Config) returns (c': Config)
    requires k.Good() && Within(k, em.Put(Load(t, a))) && At(k, em, w, c) && Addresses(k, a, x, c, t)
    ensures Reaches(k, c, 1, c') && At(k, em.Put(Load(t, a)), w, c') && Keeps(c, c', t)
    ensures Holds(Use(t), c', D(Read(k.cx, x, w)), t + 1) && Addresses(k, a, x, c', t) && c'.current == c.current
  {
    Fetch(k, em, Load(t, a));
    c' := Defines(k, em, Load(t, a), w, c, t, D(Read(k.cx, x, w)));
  }

  lemma SimStore(k: Setting, em: Emitter, o: Operand, v: Double, a: Address, x: string,
                 w: World, c: Config, below: Temp)
    returns (c': Config)
    requires k.Good() && Within(k, em.Put(Store(o, a))) && At(k, em, w, c) && Addresses(k, a, x, c, below)
    requires Resolve(o, c.temps) == Some(D(v))
    ensures Reaches(k, c, 1, c') && At(k, em.Put(Store(o, a)), Write(k.cx, x, v, w), c')
    ensures c'.temps == c.temps && c'.current == c.current
  {
    Fetch(k, em, Store(o, a));
    c' := StoreTo(a, v, c).value;
    ThenStep(k, c, 0, c, c');
    var w' := Write(k.cx, x, v, w);
    if a.Cell? {
      forall y | y in k.slots ensures k.slots[y] in c'.memory.cells
        && c'.memory.cells[k.slots[y]] == Lookup(w'.frame, y) {
        if y != x { assert k.slots[y] != k.slots[x]; }
      }
    }
  }

  /** One stretch of emitted code after another. */
  lemma Then(k: Setting, em: Emitter, c: Config, n: nat, c1: Config, mid: Emitter, m: nat, c2: Config)
    requires Reaches(k, c, n, c1) && Keeps(c, c1, em.nextTemp)
    requires Reaches(k, c1, m, c2) && Keeps(c1, c2, mid.nextTemp) && LS.Extends(em, mid)
    ensures Reaches(k, c, n + m, c2) && Keeps(c, c2, em.nextTemp)
  {
    Chain(k, c, n, c1, m, c2);
  }

  lemma StillHolds(o: Operand, v: Value, c: Config, c': Config, below: Temp, later: Temp)
    requires Holds(o, c, v, below) && Keeps(c, c', later) && below <= later
    ensures Holds(o, c', v, below)
  {
  }

  lemma StillAddresses(k: Setting, a: Address, x: string, c: Config, c': Config, below: Temp, later: Temp)
    requires Addresses(k, a, x, c, below) && Keeps(c, c', later) && below <= later
    ensures Addresses(k, a, x, c', below)
  {
  }

  /** A stretch that ends in computing `r`, after one that went before it. */
  lemma ThenComputes(k: Setting, em: Emitter, c: Config, n: nat, c1: Config, mid: Emitter, r: LS.Lowered,
                     w: World, v: Value, m: nat, c2: Config)
    requires Reaches(k, c, n, c1) && Keeps(c, c1, em.nextTemp) && LS.Extends(em, mid)
    requires Computed(k, mid, r, w, v, c1, m, c2)
    ensures Computed(k, em, r, w, v, c, n + m, c2)
  {
    Then(k, em, c, n, c1, mid, m, c2);
  }

  /** Taking labels and temporaries moves neither code nor control. */
  lemma Counted(k: Setting, em: Emitter, labels: nat, temps: nat, w: World, c: Config)
    ensures At(k, em.Labels(labels), w, c) == At(k, em, w, c)
    ensures At(k, em.Temps(temps), w, c) == At(k, em, w, c)
  {
  }

  lemma Uncounted(k: Setting, em: Emitter, labels: nat, temps: nat)
    ensures Within(k, em.Labels(labels)) == Within(k, em)
    ensures Within(k, em.Temps(temps)) == Within(k, em)
    ensures Within(k, em.Labels(labels).Temps(temps)) == Within(k, em)
    ensures LS.Extends(em, em.Labels(labels)) && LS.Extends(em, em.Temps(temps))
      && LS.Extends(em, em.Labels(labels).Temps(temps))
  {
  }

  lemma Grows(em: Emitter, mid: Emitter, later: Emitter)
    requires LS.Extends(em, mid) && LS.Extends(mid, later)
    ensures LS.Extends(em, later) && em.nextTemp <= mid.nextTemp <= later.nextTemp
  {
  }

  // ----- Arithmetic -----

  /** The emitted code from `em` to `r.em` has run from `c` to `c'`. */
  ghost predicate Computed(k: Setting, em: Emitter, r: LS.Lowered, w': World, v: Value, c: Config, n: nat, c': Config) {
    && Reaches(k, c, n, c') && At(k, r.em, w', c') && Keeps(c, c', em.nextTemp)
    && Holds(r.operand, c', v, r.em.nextTemp)
  }

  lemma SimBinary(k: Setting, em: Emitter, t: Temp, op: FloatOp, a: Operand, x: Double, b: Operand,
                  y: Double, w: World, c: Config)
    returns (c': Config)
    requires Within(k, em.Put(Binary(t, op, a, b))) && At(k, em, w, c)
    requires Resolve(a, c.temps) == Some(D(x)) && Resolve(b, c.temps) == Some(D(y))
    ensures Reaches(k, c, 1, c') && At(k, em.Put(Binary(t, op, a, b)), w, c') && c'.current == c.current
    ensures c'.temps == c.temps[t := D(Float(k.cx.ops, op, x, y))]
  {
    Fetch(k, em, Binary(t, op, a, b));
    c' := Defines(k, em, Binary(t, op, a, b), w, c, t, D(Float(k.cx.ops, op, x, y)));
  }

  lemma SimCall(k: Setting, em: Emitter, i: Instr, t: Temp, w: World, c: Config, v: Double) returns (c': Config)
    requires Within(k, em.Put(i)) && At(k, em, w, c)
    requires (i.CallTrunc? && i.t == t && Resolve(i.a, c.temps).Some? && Resolve(i.a, c.temps).value.D?
                && v == k.cx.ops.trunc(Resolve(i.a, c.temps).value.double))
          || (i.CallPow? && i.t == t && Resolve(i.a, c.temps).Some? && Resolve(i.a, c.temps).value.D?
                && Resolve(i.b, c.temps).Some? && Resolve(i.b, c.temps).value.D?
                && v == k.cx.ops.pow(Resolve(i.a, c.temps).value.double, Resolve(i.b, c.temps).value.double))
    ensures Reaches(k, c, 1, c') && At(k, em.Put(i), w, c') && c'.current == c.current
    ensures c'.temps == c.temps[t := D(v)]
  {
    Fetch(k, em, i);
    c' := Defines(k, em, i, w, c, t, D(v));
  }

  function FloatOpOf(op: ArithOp): FloatOp {
    match op case Add => FAdd case Sub => FSub case Mul => FMul case _ => FDiv
  }

  /** The truncated quotient. */
  lemma SimQuotient(k: Setting, em: Emitter, q: Temp, u: Temp, a: Operand, x: Double, b: Operand, y: Double,
                    below: Temp, w: World, c: Config)
    returns (c': Config)
    requires Within(k, em.Put(Binary(q, FDiv, a, b)).Put(CallTrunc(u, Use(q)))) && At(k, em, w, c)
    requires Holds(a, c, D(x), below) && Holds(b, c, D(y), below) && below <= q && below <= u
    ensures Reaches(k, c, 2, c') && At(k, em.Put(Binary(q, FDiv, a, b)).Put(CallTrunc(u, Use(q))), w, c')
      && c'.current == c.current
    ensures Keeps(c, c', below) && Resolve(Use(u), c'.temps) == Some(D(k.cx.ops.trunc(k.cx.ops.div(x, y))))
  {
    hide Step, Related, Run, LS.Extends, Find, Within, Reaches, LS.Emitter.Put;
    var ops, em1 := k.cx.ops, em.Put(Binary(q, FDiv, a, b));
    Fetch(k, em1, CallTrunc(u, Use(q)));
    var c1 := SimBinary(k, em, q, FDiv, a, x, b, y, w, c);
    c' := SimCall(k, em1, CallTrunc(u, Use(q)), u, w, c1, ops.trunc(ops.div(x, y)));
    Chain(k, c, 1, c1, 1, c');
  }

  /** A product and what remains when it is taken off. */
  lemma SimRest(k: Setting, em: Emitter, u: Temp, p: Temp, d: Temp, a: Operand, x: Double,
                b: Operand, y: Double, z: Double,
                below: Temp, w: World, c: Config) returns (c': Config)
    requires Within(k, em.Put(Binary(p, FMul, Use(u), b)).Put(Binary(d, FSub, a, Use(p)))) && At(k, em, w, c)
    requires Holds(a, c, D(x), below) && Holds(b, c, D(y), below) && Resolve(Use(u), c.temps) == Some(D(z))
      && below <= p && below <= d
    ensures Reaches(k, c, 2, c') && At(k, em.Put(Binary(p, FMul, Use(u), b)).Put(Binary(d, FSub, a, Use(p))), w, c')
    ensures Keeps(c, c', below) && Resolve(Use(d), c'.temps) == Some(D(k.cx.ops.sub(x, k.cx.ops.mul(z, y))))
      && c'.current == c.current
  {
    hide Step, Related, Run, LS.Extends, Find, Within, Reaches, LS.Emitter.Put;
    var em1 := em.Put(Binary(p, FMul, Use(u), b));
    Fetch(k, em1, Binary(d, FSub, a, Use(p)));
    var c1 := SimBinary(k, em, p, FMul, Use(u), z, b, y, w, c);
    c' := SimBinary(k, em1, d, FSub, a, x, Use(p), k.cx.ops.mul(z, y), w, c1);
    Chain(k, c, 1, c1, 1, c');
  }

  /** The remainder: quotient, truncation, product and difference, whatever temporaries they take. */
  lemma SimMod(k: Setting, em: Emitter, q: Temp, u: Temp, p: Temp, d: Temp, a: Operand,
               x: Double, b: Operand, y: Double,
               below: Temp, w: World, c: Config) returns (c': Config)
    requires Within(k, LS.Remainder(em, q, u, p, d, a, b)) && At(k, em, w, c)
    requires Holds(a, c, D(x), below) && Holds(b, c, D(y), below)
    requires below <= q && below <= u && below <= p && below <= d
    ensures Reaches(k, c, 4, c') && At(k, LS.Remainder(em, q, u, p, d, a, b), w, c') && c'.current == c.current
    ensures Keeps(c, c', below) && Resolve(Use(d), c'.temps) == Some(D(k.cx.ops.Arith(Mod, x, y)))
  {
    hide Step, Related, Run, LS.Extends, Find, Within, Reaches, Resolve, Keeps, At, LS.Emitter.Put;
    var em2 := em.Put(Binary(q, FDiv, a, b)).Put(CallTrunc(u, Use(q)));
    var em3 := em2.Put(Binary(p, FMul, Use(u), b));
    Fetch(k, em3, Binary(d, FSub, a, Use(p)));
    Fetch(k, em2, Binary(p, FMul, Use(u), b));
    var c2 := SimQuotient(k, em, q, u, a, x, b, y, below, w, c);
    StillHolds(a, D(x), c, c2, below, below);
    StillHolds(b, D(y), c, c2, below, below);
    c' := SimRest(k, em2, u, p, d, a, x, b, y, k.cx.ops.trunc(k.cx.ops.div(x, y)), below, w, c2);
    Chain(k, c, 2, c2, 2, c');
    KeepsThen(c, c2, c', below, below);
  }

  /** Arithmetic on two operands, in the order of temporaries the expression form uses. */
  lemma SimArith(k: Setting, op: ArithOp, a: Operand, x: Double, b: Operand, y: Double,
                 em: Emitter, w: World, c: Config)
    returns (n: nat, c': Config)
    requires Within(k, LS.LowerArith(op, a, b, em).em) && At(k, em, w, c)
    requires Holds(a, c, D(x), em.nextTemp) && Holds(b, c, D(y), em.nextTemp)
    ensures Computed(k, em, LS.LowerArith(op, a, b, em), w, D(k.cx.ops.Arith(op, x, y)), c, n, c')
    ensures c'.current == c.current
  {
    hide Step, Related, Run, LS.Extends, Find, Within, Reaches;
    var t := em.nextTemp;
    if op.Mod? {
      n := 4;
      c' := SimMod(k, em.Temps(4), t, t + 1, t + 2, t + 3, a, x, b, y, t, w, c);
    } else if op.Pow? {
      n := 1;
      c' := SimCall(k, em.Temps(1), CallPow(t, a, b), t, w, c, k.cx.ops.pow(x, y));
    } else {
      n := 1;
      c' := SimBinary(k, em.Temps(1), t, FloatOpOf(op), a, x, b, y, w, c);
    }
  }

  /** Arithmetic of a compound assignment, whose result takes its temporary first. */
  lemma SimCombine(k: Setting, op: ArithOp, a: Operand, x: Double, b: Operand, y: Double,
                   em: Emitter, w: World, c: Config)
    returns (n: nat, c': Config)
    requires Within(k, LS.Combine(op, a, b, em).em) && At(k, em, w, c)
    requires Holds(a, c, D(x), em.nextTemp) && Holds(b, c, D(y), em.nextTemp)
    ensures Computed(k, em, LS.Combine(op, a, b, em), w, D(k.cx.ops.Arith(op, x, y)), c, n, c')
    ensures c'.current == c.current
  {
    hide Step, Related, Run, LS.Extends, Find, Within, Reaches;
    var t := em.nextTemp;
    if op.Mod? {
      n := 4;
      c' := SimMod(k, em.Temps(4), t + 1, t + 2, t + 3, t, a, x, b, y, t, w, c);
    } else if op.Pow? {
      n := 1;
      c' := SimCall(k, em.Temps(1), CallPow(t, a, b), t, w, c, k.cx.ops.pow(x, y));
    } else {
      n := 1;
      c' := SimBinary(k, em.Temps(1), t, FloatOpOf(op), a, x, b, y, w, c);
    }
  }

  // ----- Joining branches -----

  /** A `phi` takes the value that belongs to the block control came from. */
  lemma SimPhi(k: Setting, em: Emitter, i: Instr, w: World, c: Config, v: Value) returns (c': Config)
    requires i.Phi? && Within(k, em.Put(i)) && At(k, em, w, c)
    requires
      || (c.previous == Some(i.fromA) && Resolve(i.a, c.temps) == Some(v))
      || (c.previous == Some(i.fromB) && i.fromA != i.fromB && Resolve(i.b, c.temps) == Some(v))
    ensures Reaches(k, c, 1, c') && At(k, em.Put(i), w, c') && Keeps(c, c', i.t) && Holds(Use(i.t), c', v, i.t + 1)
  {
    hide Related, Run, LS.Extends, Find, Within, Reaches, LS.Emitter.Put;
    Fetch(k, em, i);
    c' := Defines(k, em, i, w, c, i.t, v);
  }

  /** From the end of the first branch over `br end` into the `phi`. */
  lemma JoinsFirst(k: Setting, first: Emitter, second: Emitter, a: Operand, fromA: Label,
                   b: Operand, fromB: Label, end: Label,
                   v: Value, w: World, c: Config) returns (c': Config)
    requires k.Good() && Within(k, LS.Close(end, fromB, first))
      && Within(k, LS.Join(a, fromA, b, fromB, end, second).em)
    requires At(k, first, w, c) && c.current == Some(fromA) && Resolve(a, c.temps) == Some(v)
    ensures var r := LS.Join(a, fromA, b, fromB, end, second);
      Reaches(k, c, 2, c') && At(k, r.em, w, c') && Keeps(c, c', second.nextTemp)
        && Holds(r.operand, c', v, r.em.nextTemp)
  {
    hide Step, Related, Run, LS.Extends, Find, Within, Reaches, Setting.Good;
    var closed := LS.Close(end, end, second);
    var t := closed.nextTemp;
    var i := Phi(t, a, fromA, b, fromB);
    Uncounted(k, closed, 0, 1);
    Fetch(k, closed.Temps(1), i);
    Fetch(k, second.Put(Br(end)), Mark(end));
    Fetch(k, first.Put(Br(end)), Mark(fromB));
    var c1 := Jumps(k, first, end, second.Put(Br(end)), w, c);
    c' := SimPhi(k, closed.Temps(1), i, w, c1, v);
    Chain(k, c, 1, c1, 1, c');
  }

  /** From the end of the second branch over `br end` into the `phi`. */
  lemma JoinsSecond(k: Setting, second: Emitter, a: Operand, fromA: Label, b: Operand, fromB: Label, end: Label,
                    v: Value, w: World, c: Config) returns (c': Config)
    requires k.Good() && Within(k, LS.Join(a, fromA, b, fromB, end, second).em)
    requires At(k, second, w, c) && c.current == Some(fromB) && fromA != fromB && Resolve(b, c.temps) == Some(v)
    ensures var r := LS.Join(a, fromA, b, fromB, end, second);
      Reaches(k, c, 2, c') && At(k, r.em, w, c') && Keeps(c, c', second.nextTemp)
        && Holds(r.operand, c', v, r.em.nextTemp)
  {
    hide Step, Related, Run, LS.Extends, Find, Within, Reaches, Setting.Good;
    var closed := LS.Close(end, end, second);
    var t := closed.nextTemp;
    var i := Phi(t, a, fromA, b, fromB);
    Uncounted(k, closed, 0, 1);
    Fetch(k, closed.Temps(1), i);
    Fetch(k, second.Put(Br(end)), Mark(end));
    var c1 := Jumps(k, second, end, second.Put(Br(end)), w, c);
    c' := SimPhi(k, closed.Temps(1), i, w, c1, v);
    Chain(k, c, 1, c1, 1, c');
  }

  /** From the end of the branch taken, after all that went before it, into the `phi`. */
  lemma JoinsTaken(k: Setting, em: Emitter, b: bool, tv: LS.Lowered, mid: Emitter, fv: LS.Lowered,
                   m: Label, v: Value, w: World,
                   c: Config, n: nat, c1: Config) returns (c': Config)
    requires k.Good() && mid == LS.Close(m + 2, m + 1, tv.em) && Within(k, mid) && LS.Extends(em, mid)
      && LS.Extends(mid, fv.em)
    requires Within(k, LS.Join(tv.operand, m, fv.operand, m + 1, m + 2, fv.em).em)
    requires Reaches(k, c, n, c1) && Keeps(c, c1, em.nextTemp) && At(k, if b then tv.em else fv.em, w, c1)
    requires c1.current == Some(if b then m else m + 1)
      && Resolve(if b then tv.operand else fv.operand, c1.temps) == Some(v)
    ensures Computed(k, em, LS.Join(tv.operand, m, fv.operand, m + 1, m + 2, fv.em), w, v, c, n + 2, c')
  {
    hide Step, Related, Run, LS.Extends, Find, Within, Reaches, At, Keeps, LS.Emitter.Put, Setting.Good;
    if b {
      c' := JoinsFirst(k, tv.em, fv.em, tv.operand, m, fv.operand, m + 1, m + 2, v, w, c1);
    } else {
      c' := JoinsSecond(k, fv.em, tv.operand, m, fv.operand, m + 1, m + 2, v, w, c1);
    }
    Grows(em, mid, fv.em);
    Then(k, em, c, n, c1, fv.em, 2, c');
  }

  /** The test of a ternary and its branch: control stands at the start of the branch taken. */
  lemma Opens(k: Setting, o: Operand, b: bool, l: Label, m: Label, tested: Emitter, other: Emitter,
              labels: nat, w: World, c: Config)
    returns (c': Config)
    requires k.Good() && At(k, tested, w, c) && Resolve(o, c.temps) == Some(B(b))
    requires Within(k, LS.Fork(o, l, m, tested.Labels(labels))) && Within(k, other.Put(Mark(m)))
    ensures var fork := LS.Fork(o, l, m, tested.Labels(labels));
      && Reaches(k, c, 1, c') && c'.temps == c.temps && c'.current == Some(if b then l else m)
        && Keeps(c, c', tested.nextTemp)
      && At(k, if b then fork else other.Put(Mark(m)), w, c')
  {
    hide Step, Related, Run, LS.Extends, Find, Within, Reaches;
    var ready := tested.Labels(labels);
    Fetch(k, ready.Put(CondBr(o, l, m)), Mark(l));
    c' := Branches(k, ready, o, b, l, m, if b then ready.Put(CondBr(o, l, m)) else other, w, c);
  }

  // ----- The three lowerings of an expression -----

  /** An expression is lowered for its number, for its truth, or for its text. */
  datatype Form = AsNumber | AsCondition | AsText

  function LowerAs(form: Form, locals: set<string>, e: Expr, em: Emitter): (r: LS.Lowered)
    ensures LS.Extends(em, r.em)
  {
    match form
    case AsNumber => LS.Number(locals, e, em)
    case AsCondition => LS.Condition(locals, e, em)
    case AsText => LS.CapturedText(locals, e, em)
  }

  predicate ForksAs(form: Form, e: Expr) {
    match form
    case AsNumber => NumberForks(e)
    case AsCondition => ConditionForks(e)
    case AsText => TextForks(e)
  }

  predicate JoinsAs(form: Form, e: Expr) {
    match form
    case AsNumber => NumberJoins(e)
    case AsCondition => ConditionJoins(e)
    case AsText => TextJoins(e)
  }

  function ValueAs(form: Form, ops: FloatOps, v: Double): Value {
    match form
    case AsNumber => D(v)
    case AsCondition => B(ops.Truthy(v))
    case AsText => Text(v)
  }

  /** A ternary is joined if one of its branches has a side effect; as text it always is. */
  predicate JoinedAs(form: Form, e: Expr) {
    e.Conditional? && (form.AsText? || BranchesToJoin(e))
  }

  function TernaryAs(form: Form, locals: set<string>, e: Expr, em: Emitter): LS.Lowered {
    match form
    case AsNumber => LS.Number(locals, e, em)
    case AsCondition => LS.Condition(locals, e, em)
    case AsText => LS.TextOf(locals, e, em)
  }

  /** The pieces of a joined ternary. */
  datatype Joined = Joined(test: LS.Lowered, fork: Emitter, first: LS.Lowered, mid: Emitter, second: LS.Lowered)

  function PiecesOf(form: Form, locals: set<string>, e: Expr, em: Emitter): Joined
    requires JoinedAs(form, e)
  {
    var test := LS.Condition(locals, e.test, em);
    var m := test.em.nextLabel;
    var fork := LS.Fork(test.operand, m, m + 1, test.em.Labels(3));
    var first := LowerAs(form, locals, e.ifTrue, fork);
    var mid := LS.Close(m + 2, m + 1, first.em);
    Joined(test, fork, first, mid, LowerAs(form, locals, e.ifFalse, mid))
  }

  lemma TernaryIs(form: Form, locals: set<string>, e: Expr, em: Emitter)
    requires JoinedAs(form, e)
    ensures
      var j := PiecesOf(form, locals, e, em);
      var m := j.test.em.nextLabel;
      TernaryAs(form, locals, e, em) == LS.Join(j.first.operand, m, j.second.operand, m + 1, m + 2, j.second.em)
  {
    hide LS.Fork, LS.Close, LS.Join;
    match form
    case AsNumber =>
    case AsCondition => assert LS.Condition(locals, e, em) == LS.ConditionalCondition(locals, e, em);
    case AsText =>
  }

  /** The code of a ternary that is not joined: both branches, then a selection. */
  lemma ChoiceIs(form: Form, locals: set<string>, e: Expr, em: Emitter)
    requires e.Conditional? && !BranchesToJoin(e) && !form.AsText?
    ensures
      var test := LS.Condition(locals, e.test, em);
      var first := LowerAs(form, locals, e.ifTrue, test.em);
      var second := LowerAs(form, locals, e.ifFalse, first.em);
      TernaryAs(form, locals, e, em) == LS.Choose(test.operand, first.operand, second.operand, second.em)
  {
    hide LS.Choose;
    match form
    case AsNumber =>
    case AsCondition => assert LS.Condition(locals, e, em) == LS.ConditionalCondition(locals, e, em);
  }

  lemma TernaryMeans(cx: Context, e: Expr, w: World)
    requires e.Conditional?
    ensures
      var tested := Eval(cx, e.test, w);
      Eval(cx, e, w) == Eval(cx, if cx.ops.Truthy(tested.value) then e.ifTrue else e.ifFalse, tested.world)
  {
  }

  /** What a ternary asks of its parts, for each of its lowerings. */
  lemma TernaryForms(e: Expr)
    requires e.Conditional?
    ensures NumberJoins(e) ==> ConditionJoins(e.test) && NumberJoins(e.ifTrue) && NumberJoins(e.ifFalse)
    ensures ConditionJoins(e) ==> ConditionJoins(e.test) && ConditionJoins(e.ifTrue) && ConditionJoins(e.ifFalse)
    ensures NumberJoins(e) && BranchesToJoin(e) ==> !NumberForks(e.ifTrue) && !NumberForks(e.ifFalse)
    ensures ConditionJoins(e) && BranchesToJoin(e) ==> !ConditionForks(e.ifTrue) && !ConditionForks(e.ifFalse)
    ensures TextJoins(e) ==>
      ConditionJoins(e.test) && TextJoins(e.ifTrue) && TextJoins(e.ifFalse) && !TextForks(e.ifTrue)
        && !TextForks(e.ifFalse)
    ensures !NumberForks(e) ==> !ConditionForks(e.test) && !NumberForks(e.ifTrue) && !NumberForks(e.ifFalse)
    ensures !ConditionForks(e) ==> !ConditionForks(e.test) && !ConditionForks(e.ifTrue) && !ConditionForks(e.ifFalse)
    ensures BranchesToJoin(e) ==> NumberForks(e) && ConditionForks(e)
    ensures TextForks(e)
  {
  }

  /** After the test of a joined ternary: control stands at the start of the branch taken. */
  lemma OpensTernary(k: Setting, em: Emitter, j: Joined, b: bool, m: Label, w: World, c: Config, n: nat, c1: Config)
    returns (c2: Config)
    requires j.fork == LS.Fork(j.test.operand, m, m + 1, j.test.em.Labels(3))
      && j.mid == LS.Close(m + 2, m + 1, j.first.em)
    requires k.Good() && Within(k, j.fork) && Within(k, j.mid) && LS.Extends(em, j.test.em)
      && Computed(k, em, j.test, w, B(b), c, n, c1)
    ensures Reaches(k, c, n + 1, c2) && Keeps(c, c2, em.nextTemp) && At(k, if b then j.fork else j.mid, w, c2)
    ensures c2.current == Some(if b then m else m + 1)
  {
    hide Step, Related, Run, LS.Extends, Find, Within, Reaches, At, Keeps, LS.Emitter.Put, Setting.Good, LS.Fork;
    c2 := Opens(k, j.test.operand, b, m, m + 1, j.test.em, j.first.em.Put(Br(m + 2)), 3, w, c1);
    Then(k, em, c, n, c1, j.test.em, 1, c2);
  }

  // ----- Expressions -----

  /** The last instruction of an expression, which takes one more temporary. */
  lemma Ends(k: Setting, em: Emitter, i: Instr)
    requires Within(k, LS.Last(i, em).em)
    ensures |em.code| < |k.code| && k.code[|em.code|] == i && Within(k, em)
  {
    Fetch(k, em.Temps(1), i);
  }

  lemma Backwards(k: Setting, test: Emitter, fork: Emitter, first: Emitter, mid: Emitter, second: Emitter, end: Emitter)
    requires Within(k, end) && LS.Extends(second, end) && LS.Extends(mid, second) && LS.Extends(first, mid)
    requires LS.Extends(fork, first) && LS.Extends(test.Labels(3), fork)
    ensures Within(k, second) && Within(k, mid) && Within(k, first) && Within(k, fork) && Within(k, test)
    ensures LS.Extends(test, fork) && LS.Extends(fork, mid)
  {
    Earlier(k, second, end);
    Earlier(k, mid, second);
    Earlier(k, first, mid);
    Earlier(k, fork, first);
    Earlier(k, test.Labels(3), fork);
  }

  /** The watch on early reads is not in the machine. */
  lemma Watch(k: Setting, em: Emitter, w: World, w': World, c: Config)
    requires At(k, em, w, c) && w.persistent == w'.persistent && w.frame == w'.frame
      && w.output == w'.output && w.exit == w'.exit
    ensures At(k, em, w', c)
  {
  }

  /** An instruction that turns one operand into the expression's temporary. */
  lemma SimLast(k: Setting, em: Emitter, i: Instr, w: World, c: Config, v: Value) returns (c': Config)
    requires Within(k, LS.Last(i, em).em) && At(k, em, w, c)
    requires
      match i
      case FCmp(t, cop, a, b) => t == em.nextTemp && (match (Resolve(a, c.temps), Resolve(b, c.temps))
        case (Some(D(x)), Some(D(y))) => v == B(k.cx.ops.compare(cop, x, y))
        case _ => false)
      case CompareValues(t, l, a, r, b, cop) => t == em.nextTemp
        && (match (Resolve(l, c.temps), Resolve(a, c.temps), Resolve(r, c.temps), Resolve(b, c.temps))
        case (Some(Text(_)), Some(D(x)), Some(Text(_)), Some(D(y))) => v == B(k.cx.ops.compare(cop, x, y))
        case _ => false)
      case BoolToDouble(t, a) => t == em.nextTemp
        && (match Resolve(a, c.temps) case Some(B(x)) => v == D(FromBool(x)) case _ => false)
      case FormatNumber(t, a) => t == em.nextTemp
        && (match Resolve(a, c.temps) case Some(D(x)) => v == Text(x) case _ => false)
      case Capture(t, a) => t == em.nextTemp
        && (match Resolve(a, c.temps) case Some(Text(x)) => v == Text(x) case _ => false)
      case CallBuiltin(t, which) => t == em.nextTemp && v == D(k.cx.builtins.Get(which))
      case LoadRecord(t) => t == em.nextTemp && v == Record
      case DoubleToInt(t, a) => t == em.nextTemp
        && (match Resolve(a, c.temps) case Some(D(x)) => v == I(k.cx.ops.status(x)) case _ => false)
      case _ => false
    ensures Computed(k, em, LS.Last(i, em), w, v, c, 1, c') && c'.current == c.current
  {
    hide Related, Run, LS.Extends, Find, Within, Reaches;
    Ends(k, em, i);
    c' := Defines(k, em.Temps(1), i, w, c, em.nextTemp, v);
  }

  lemma SimSelect(k: Setting, em: Emitter, o: Operand, b: bool, x: Operand, v: Value, y: Operand, u: Value,
                  w: World, c: Config) returns (c': Config)
    requires Within(k, LS.Last(Select(em.nextTemp, o, x, y), em).em) && At(k, em, w, c)
    requires Resolve(o, c.temps) == Some(B(b)) && Resolve(x, c.temps) == Some(v) && Resolve(y, c.temps) == Some(u)
    ensures Computed(k, em, LS.Last(Select(em.nextTemp, o, x, y), em), w, if b then v else u, c, 1, c')
      && c'.current == c.current
  {
    hide Related, Run, LS.Extends, Find, Within, Reaches;
    var i := Select(em.nextTemp, o, x, y);
    Ends(k, em, i);
    c' := Defines(k, em.Temps(1), i, w, c, em.nextTemp, if b then v else u);
  }

  /** A number, a built-in variable and a plus sign are themselves. */
  lemma PlainIs(cx: Context, e: Expr, em: Emitter, w: World)
    ensures e.Number? ==>
      LS.Number(cx.locals, e, em) == LS.Lowered(em, Literal(e.value)) && Eval(cx, e, w) == Evaluated(e.value, w)
    ensures e.Builtin? ==>
      && LS.Number(cx.locals, e, em) == LS.Last(CallBuiltin(em.nextTemp, e.which), em)
      && Eval(cx, e, w) == Evaluated(cx.builtins.Get(e.which), w)
    ensures e.Sign? && e.sop.UPlus? ==>
      && LS.Number(cx.locals, e, em) == LS.Number(cx.locals, e.operand, em) && Eval(cx, e, w) == Eval(cx, e.operand, w)
      && NumberJoins(e) == NumberJoins(e.operand) && NumberForks(e) == NumberForks(e.operand)
  {
    hide LS.Last;
  }

  lemma {:induction false} SimNumber(k: Setting, e: Expr, em: Emitter, w: World, c: Config) returns (n: nat, c': Config)
    requires NumberJoins(e)
    requires k.Good() && Within(k, LS.Number(k.cx.locals, e, em).em) && At(k, em, w, c)
    ensures Computed(k, em, LS.Number(k.cx.locals, e, em), Eval(k.cx, e, w).world, D(Eval(k.cx, e, w).value), c, n, c')
    ensures !NumberForks(e) ==> c'.current == c.current
    decreases e, if LS.IsLogical(e) then 1 else 0, 2
  {
    hide Step, Related, Run, LS.Extends, Find, Within, Reaches, At, Keeps, Setting.Good;
    hide Computed, Eval, LS.Number, LS.Condition, NumberJoins, ConditionJoins, NumberForks, ConditionForks;
    match e
    case Number(v) => PlainIs(k.cx, e, em, w); n, c' := SimNothing(k, em, Literal(v), D(v), w, c);
    case Name(_) => n, c' := SimName(k, e, em, w, c);
    case Builtin(which) =>
      PlainIs(k.cx, e, em, w);
      n := 1;
      c' := SimLast(k, em, CallBuiltin(em.nextTemp, which), w, c, D(k.cx.builtins.Get(which)));
    case Assign(_, _, _) => n, c' := SimAssign(k, e, em, w, c);
    case Sign(UPlus, operand) => PlainIs(k.cx, e, em, w); n, c' := SimNumber(k, operand, em, w, c);
    case Sign(UMinus, _) => n, c' := SimNegation(k, e, em, w, c);
    case Sign(Not, _) => n, c' := SimNot(k, e, em, w, c);
    case Increment(_, _, _) => n, c' := SimIncrement(k, e, em, w, c);
    case Arith(_, _, _) => n, c' := SimBinaryExpr(k, e, em, w, c);
    case Conditional(_, _, _) =>
      TernaryForms(e);
      if BranchesToJoin(e) {
        n, c' := SimJoin(AsNumber, k, e, em, w, c);
      } else {
        n, c' := SimChoice(AsNumber, k, e, em, w, c);
      }
    case Compare(_, _, _) => n, c' := SimNumberFromBool(k, e, em, w, c);
    case And(_, _) => n, c' := SimNumberFromBool(k, e, em, w, c);
    case Or(_, _) => n, c' := SimNumberFromBool(k, e, em, w, c);
  }

  lemma SimNothing(k: Setting, em: Emitter, o: Operand, v: Value, w: World, c: Config) returns (n: nat, c': Config)
    requires At(k, em, w, c) && Holds(o, c, v, em.nextTemp)
    ensures n == 0 && c' == c && Computed(k, em, LS.Lowered(em, o), w, v, c, n, c')
  {
    n, c' := 0, c;
  }

  lemma {:induction false} SimName(k: Setting, e: Expr, em: Emitter, w: World, c: Config) returns (n: nat, c': Config)
    requires e.Name? && NumberJoins(e)
    requires k.Good() && Within(k, LS.Number(k.cx.locals, e, em).em) && At(k, em, w, c)
    ensures Computed(k, em, LS.Number(k.cx.locals, e, em), Eval(k.cx, e, w).world, D(Eval(k.cx, e, w).value), c, n, c')
    ensures !NumberForks(e) ==> c'.current == c.current
  {
    hide Step, Related, Run, LS.Extends, Find, Within, Reaches, At, Keeps, Setting.Good;
    var a := LS.VariableAddress(k.cx.locals, e.name, em);
    var t := a.em.nextTemp;
    Ends(k, a.em, Load(t, a.address));
    var n1, c1 := SimAddress(k, e.name, em, w, c);
    Counted(k, a.em, 0, 1, w, c1);
    c' := SimLoad(k, a.em.Temps(1), t, a.address, e.name, w, c1);
    Watch(k, LS.Number(k.cx.locals, e, em).em, w, NoteRead(e.name, w), c');
    Then(k, em, c, n1, c1, a.em, 1, c');
    n := n1 + 1;
  }

  lemma {:induction false} SimNegation(k: Setting, e: Expr, em: Emitter, w: World, c: Config)
    returns (n: nat, c': Config)
    requires e.Sign? && e.sop.UMinus? && NumberJoins(e)
    requires k.Good() && Within(k, LS.Number(k.cx.locals, e, em).em) && At(k, em, w, c)
    ensures Computed(k, em, LS.Number(k.cx.locals, e, em), Eval(k.cx, e, w).world, D(Eval(k.cx, e, w).value), c, n, c')
    ensures !NumberForks(e) ==> c'.current == c.current
    decreases e, 0, 1
  {
    hide Step, Related, Run, LS.Extends, Find, Within, Reaches, At, Keeps, Setting.Good;
    var r, v := LS.Number(k.cx.locals, e.operand, em), Eval(k.cx, e.operand, w);
    var t := r.em.nextTemp;
    Ends(k, r.em, Binary(t, FSub, Literal(ZERO), r.operand));
    var n1, c1 := SimNumber(k, e.operand, em, w, c);
    Counted(k, r.em, 0, 1, v.world, c1);
    c' := SimBinary(k, r.em.Temps(1), t, FSub, Literal(ZERO), ZERO, r.operand, v.value, v.world, c1);
    KeepsDefined(c1, c', t, D(k.cx.ops.sub(ZERO, v.value)), t);
    Then(k, em, c, n1, c1, r.em, 1, c');
    n := n1 + 1;
  }

  lemma {:induction false} SimNot(k: Setting, e: Expr, em: Emitter, w: World, c: Config) returns (n: nat, c': Config)
    requires e.Sign? && e.sop.Not? && NumberJoins(e)
    requires k.Good() && Within(k, LS.Number(k.cx.locals, e, em).em) && At(k, em, w, c)
    ensures Computed(k, em, LS.Number(k.cx.locals, e, em), Eval(k.cx, e, w).world, D(Eval(k.cx, e, w).value), c, n, c')
    ensures !NumberForks(e) ==> c'.current == c.current
    decreases e, 0, 1
  {
    hide Step, Related, Run, LS.Extends, Find, Within, Reaches, At, Keeps, Setting.Good, LS.Last;
    var r, v := LS.Condition(k.cx.locals, e.operand, em), Eval(k.cx, e.operand, w);
    var b := k.cx.ops.Truthy(v.value);
    Ends(k, r.em, Select(r.em.nextTemp, r.operand, Literal(ZERO), Literal(ONE)));
    var n1, c1 := SimCondition(k, e.operand, em, w, c);
    c' := SimSelect(k, r.em, r.operand, b, Literal(ZERO), D(ZERO), Literal(ONE), D(ONE), v.world, c1);
    Then(k, em, c, n1, c1, r.em, 1, c');
    n := n1 + 1;
  }

  /** What arithmetic means, what is emitted for it and which blocks that opens. */
  lemma ArithIs(cx: Context, e: Expr, em: Emitter, w: World)
    requires e.Arith?
    ensures
      var l := LS.Number(cx.locals, e.left, em);
      var r := LS.Number(cx.locals, e.right, l.em);
      LS.Number(cx.locals, e, em) == LS.LowerArith(e.op, l.operand, r.operand, r.em)
    ensures
      var lv := Eval(cx, e.left, w);
      var rv := Eval(cx, e.right, lv.world);
      Eval(cx, e, w) == Evaluated(cx.ops.Arith(e.op, lv.value, rv.value), rv.world)
    ensures NumberJoins(e) <==> NumberJoins(e.left) && NumberJoins(e.right)
    ensures NumberForks(e) <==> NumberForks(e.left) || NumberForks(e.right)
  {
    hide LS.LowerArith;
  }

  lemma {:induction false} SimBinaryExpr(k: Setting, e: Expr, em: Emitter, w: World, c: Config)
    returns (n: nat, c': Config)
    requires e.Arith? && NumberJoins(e)
    requires k.Good() && Within(k, LS.Number(k.cx.locals, e, em).em) && At(k, em, w, c)
    ensures Computed(k, em, LS.Number(k.cx.locals, e, em), Eval(k.cx, e, w).world, D(Eval(k.cx, e, w).value), c, n, c')
    ensures !NumberForks(e) ==> c'.current == c.current
    decreases e, 0, 1
  {
    hide Step, Related, Run, LS.Extends, Find, Within, Reaches, At, Keeps, Setting.Good, LS.LowerArith;
    hide Eval, LS.Number, LS.Condition, NumberJoins, ConditionJoins, NumberForks, ConditionForks;
    ArithIs(k.cx, e, em, w);
    var ls := k.cx.locals;
    var l, lv := LS.Number(ls, e.left, em), Eval(k.cx, e.left, w);
    var r, rv := LS.Number(ls, e.right, l.em), Eval(k.cx, e.right, lv.world);
    Earlier(k, r.em, LS.Number(ls, e, em).em);
    Earlier(k, l.em, r.em);
    Grows(em, l.em, r.em);
    var n1, c1 := SimNumber(k, e.left, em, w, c);
    var n2, c2 := SimNumber(k, e.right, l.em, lv.world, c1);
    StillHolds(l.operand, D(lv.value), c1, c2, l.em.nextTemp, l.em.nextTemp);
    var n3, c3 := SimArith(k, e.op, l.operand, lv.value, r.operand, rv.value, r.em, rv.world, c2);
    Then(k, em, c, n1, c1, l.em, n2, c2);
    Then(k, em, c, n1 + n2, c2, r.em, n3, c3);
    n, c' := n1 + n2 + n3, c3;
  }

  lemma LogicalIs(ls: set<string>, e: Expr, em: Emitter)
    requires LS.IsLogical(e)
    ensures LS.Number(ls, e, em) == LS.NumberFromBool(LS.Condition(ls, e, em))
    ensures NumberJoins(e) == ConditionJoins(e) && NumberForks(e) == ConditionForks(e)
  {
    hide LS.NumberFromBool, LS.Condition, ConditionJoins, ConditionForks;
  }

  lemma {:induction false} SimNumberFromBool(k: Setting, e: Expr, em: Emitter, w: World, c: Config)
    returns (n: nat, c': Config)
    requires LS.IsLogical(e) && NumberJoins(e)
    requires k.Good() && Within(k, LS.Number(k.cx.locals, e, em).em) && At(k, em, w, c)
    ensures Computed(k, em, LS.Number(k.cx.locals, e, em), Eval(k.cx, e, w).world, D(Eval(k.cx, e, w).value), c, n, c')
    ensures !NumberForks(e) ==> c'.current == c.current
    decreases e, 1, 1
  {
    hide Step, Related, Run, LS.Extends, Find, Within, Reaches, At, Keeps, Setting.Good, LS.Last;
    hide Eval, LS.Number, LS.Condition, NumberJoins, ConditionJoins, NumberForks, ConditionForks;
    LogicalIs(k.cx.locals, e, em);
    var r, v := LS.Condition(k.cx.locals, e, em), Eval(k.cx, e, w);
    Ends(k, r.em, BoolToDouble(r.em.nextTemp, r.operand));
    var n1, c1 := SimCondition(k, e, em, w, c);
    LogicalIsBool(k, e, w);
    c' := SimLast(k, r.em, BoolToDouble(r.em.nextTemp, r.operand), v.world, c1, D(v.value));
    Then(k, em, c, n1, c1, r.em, 1, c');
    n := n1 + 1;
  }

  lemma LogicalIsBool(k: Setting, e: Expr, w: World)
    requires LS.IsLogical(e) && k.Good()
    ensures Eval(k.cx, e, w).value == FromBool(k.cx.ops.Truthy(Eval(k.cx, e, w).value))
    ensures k.cx.ops.Truthy(ONE) && !k.cx.ops.Truthy(ZERO) && k.cx.reading.AsEmitted?
  {
  }

  /** A variable's address and its present value. */
  lemma SimFetch(k: Setting, x: string, em: Emitter, w: World, c: Config) returns (n: nat, c': Config)
    requires var a := LS.VariableAddress(k.cx.locals, x, em);
      Within(k, LS.Last(Load(a.em.nextTemp, a.address), a.em).em)
    requires k.Good() && At(k, em, w, c)
    ensures
      var a := LS.VariableAddress(k.cx.locals, x, em);
      var t := a.em.nextTemp;
      var r := LS.Last(Load(t, a.address), a.em);
      && Computed(k, em, r, w, D(Read(k.cx, x, w)), c, n, c')
      && Addresses(k, a.address, x, c', t) && c'.current == c.current && LS.Extends(em, r.em)
  {
    hide Step, Related, Run, Find, Within, Reaches, At, Keeps, Setting.Good;
    var a := LS.VariableAddress(k.cx.locals, x, em);
    var t := a.em.nextTemp;
    Ends(k, a.em, Load(t, a.address));
    var n1, c1 := SimAddress(k, x, em, w, c);
    Counted(k, a.em, 0, 1, w, c1);
    c' := SimLoad(k, a.em.Temps(1), t, a.address, x, w, c1);
    Then(k, em, c, n1, c1, a.em, 1, c');
    n := n1 + 1;
  }

  lemma AssignIs(cx: Context, e: Expr, em: Emitter, w: World)
    requires e.Assign?
    ensures
      var a := LS.VariableAddress(cx.locals, e.target, em);
      var t := a.em.nextTemp;
      var r := LS.Number(cx.locals, e.right, LS.Last(Load(t, a.address), a.em).em);
      var v := if e.aop.Plain? then r else LS.Combine(e.aop.op, Use(t), r.operand, r.em);
      LS.Number(cx.locals, e, em) == LS.Lowered(v.em.Put(Store(v.operand, a.address)), v.operand)
    ensures
      var before := Read(cx, e.target, w);
      var rv := Eval(cx, e.right, if e.aop.Plain? then w else NoteRead(e.target, w));
      var v := if e.aop.Plain? then rv.value else cx.ops.Arith(e.aop.op, before, rv.value);
      Eval(cx, e, w) == Evaluated(v, Write(cx, e.target, v, rv.world))
    ensures NumberJoins(e) == NumberJoins(e.right) && NumberForks(e) == NumberForks(e.right)
  {
    hide LS.VariableAddress, LS.Last, LS.Combine, Read, Write;
  }

  lemma {:induction false} SimAssign(k: Setting, e: Expr, em: Emitter, w: World, c: Config) returns (n: nat, c': Config)
    requires e.Assign? && NumberJoins(e)
    requires k.Good() && Within(k, LS.Number(k.cx.locals, e, em).em) && At(k, em, w, c)
    ensures Computed(k, em, LS.Number(k.cx.locals, e, em), Eval(k.cx, e, w).world, D(Eval(k.cx, e, w).value), c, n, c')
    ensures !NumberForks(e) ==> c'.current == c.current
    decreases e, 0, 1
  {
    hide Step, Related, Run, LS.Extends, Find, Within, Reaches, At, Keeps, Setting.Good, Read, Write;
    hide LS.VariableAddress, LS.Last;
    hide LS.Combine, Eval, LS.Number, LS.Condition, NumberJoins, ConditionJoins, NumberForks, ConditionForks;
    AssignIs(k.cx, e, em, w);
    var ls, x := k.cx.locals, e.target;
    var a := LS.VariableAddress(ls, x, em);
    var t := a.em.nextTemp;
    var loaded := LS.Last(Load(t, a.address), a.em).em;
    var r := LS.Number(ls, e.right, loaded);
    var v := if e.aop.Plain? then r else LS.Combine(e.aop.op, Use(t), r.operand, r.em);
    Fetch(k, v.em, Store(v.operand, a.address));
    if !e.aop.Plain? { Earlier(k, r.em, v.em); }
    Earlier(k, loaded, r.em);
    var n1, c1 := SimFetch(k, x, em, w, c);
    var w1 := if e.aop.Plain? then w else NoteRead(x, w);
    Watch(k, loaded, w, w1, c1);
    var n2, c2 := SimNumber(k, e.right, loaded, w1, c1);
    Then(k, em, c, n1, c1, loaded, n2, c2);
    Grows(em, loaded, r.em);
    var rv := Eval(k.cx, e.right, w1);
    StillHolds(Use(t), D(Read(k.cx, x, w)), c1, c2, loaded.nextTemp, loaded.nextTemp);
    StillAddresses(k, a.address, x, c1, c2, t, loaded.nextTemp);
    var n3, c3 := SimSettle(k, e.aop, x, a.address, t, r, Read(k.cx, x, w), rv.value, rv.world, c2);
    ThenComputes(k, em, c, n1 + n2, c2, r.em, LS.Number(ls, e, em), Eval(k.cx, e, w).world,
                 D(Eval(k.cx, e, w).value), n3, c3);
    n, c' := n1 + n2 + n3, c3;
  }

  /** The end of an assignment: the value is combined with the old one and stored. */
  lemma SimSettle(k: Setting, aop: AssignOp, x: string, a: Address, t: Temp, r: LS.Lowered, before: Double,
                  y: Double, w: World, c: Config)
    returns (n: nat, c': Config)
    requires k.Good() && At(k, r.em, w, c) && Addresses(k, a, x, c, t) && t < r.em.nextTemp
    requires Holds(Use(t), c, D(before), r.em.nextTemp) && Holds(r.operand, c, D(y), r.em.nextTemp)
    requires
      var v := if aop.Plain? then r else LS.Combine(aop.op, Use(t), r.operand, r.em);
      Within(k, v.em.Put(Store(v.operand, a)))
    ensures
      var v := if aop.Plain? then r else LS.Combine(aop.op, Use(t), r.operand, r.em);
      var z := if aop.Plain? then y else k.cx.ops.Arith(aop.op, before, y);
      && Computed(k, r.em, LS.Lowered(v.em.Put(Store(v.operand, a)), v.operand), Write(k.cx, x, z, w), D(z), c, n, c')
      && c'.current == c.current
  {
    hide Step, Related, Run, LS.Extends, Find, Within, Reaches, At, Keeps, Setting.Good, Read, Write, LS.Combine;
    hide Addresses;
    var v := if aop.Plain? then r else LS.Combine(aop.op, Use(t), r.operand, r.em);
    var z := if aop.Plain? then y else k.cx.ops.Arith(aop.op, before, y);
    Fetch(k, v.em, Store(v.operand, a));
    var n1, c1 := SimUpdate(k, aop, Use(t), before, r.operand, y, r.em, w, c);
    StillAddresses(k, a, x, c, c1, t, r.em.nextTemp);
    c' := SimStore(k, v.em, v.operand, z, a, x, w, c1, t);
    KeepsAll(c1, c', r.em.nextTemp);
    KeepsThen(c, c1, c', r.em.nextTemp, r.em.nextTemp);
    Chain(k, c, n1, c1, 1, c');
    n := n1 + 1;
  }

  /** The value an assignment stores: the new one, or the old one combined with it. */
  lemma SimUpdate(k: Setting, aop: AssignOp, a: Operand, x: Double, b: Operand, y: Double,
                  em: Emitter, w: World, c: Config)
    returns (n: nat, c': Config)
    requires At(k, em, w, c) && Holds(a, c, D(x), em.nextTemp) && Holds(b, c, D(y), em.nextTemp)
    requires aop.Compound? ==> Within(k, LS.Combine(aop.op, a, b, em).em)
    ensures
      var r := if aop.Plain? then LS.Lowered(em, b) else LS.Combine(aop.op, a, b, em);
      Computed(k, em, r, w, D(if aop.Plain? then y else k.cx.ops.Arith(aop.op, x, y)), c, n, c')
        && c'.current == c.current
  {
    hide Step, Related, Run, LS.Extends, Find, Within, Reaches, At, Keeps, Setting.Good, LS.Combine;
    if aop.Plain? {
      n, c' := SimNothing(k, em, b, D(y), w, c);
    } else {
      n, c' := SimCombine(k, aop.op, a, x, b, y, em, w, c);
    }
  }

  lemma KeepsAll(c: Config, c': Config, below: Temp)
    requires c'.temps == c.temps
    ensures Keeps(c, c', below)
  {
  }

  lemma KeepsDefined(c: Config, c': Config, t: Temp, v: Value, below: Temp)
    requires below <= t && c'.temps == c.temps[t := v]
    ensures Keeps(c, c', below)
  {
  }

  lemma PutExtends(em: Emitter, i: Instr)
    ensures LS.Extends(em, em.Put(i)) && LS.Extends(em, em)
  {
  }

  lemma {:induction false} SimIncrement(k: Setting, e: Expr, em: Emitter, w: World, c: Config)
    returns (n: nat, c': Config)
    requires e.Increment?
    requires k.Good() && Within(k, LS.Number(k.cx.locals, e, em).em) && At(k, em, w, c)
    ensures Computed(k, em, LS.Number(k.cx.locals, e, em), Eval(k.cx, e, w).world, D(Eval(k.cx, e, w).value), c, n, c')
    ensures c'.current == c.current
  {
    hide Step, Related, Run, LS.Extends, Find, Within, Reaches, At, Keeps, Setting.Good, Read, Write;
    hide LS.VariableAddress, LS.StepBy;
    var a := LS.VariableAddress(k.cx.locals, e.name, em);
    Earlier(k, a.em, LS.StepBy(a, e.up, e.returnOld).em);
    var n1, c1 := SimAddress(k, e.name, em, w, c);
    c' := SimStepBy(k, a, e.up, e.returnOld, e.name, w, c1);
    Grows(em, a.em, a.em);
    Then(k, em, c, n1, c1, a.em, 3, c');
    n := n1 + 3;
  }

  lemma SimStepBy(k: Setting, a: LS.Addressed, up: bool, returnOld: bool, x: string, w: World, c: Config)
    returns (c': Config)
    requires k.Good() && Within(k, LS.StepBy(a, up, returnOld).em) && At(k, a.em, w, c)
    requires Addresses(k, a.address, x, c, a.em.nextTemp)
    ensures
      var before := Read(k.cx, x, w);
      var after := if up then k.cx.ops.add(before, ONE) else k.cx.ops.sub(before, ONE);
      && Reaches(k, c, 3, c') && At(k, LS.StepBy(a, up, returnOld).em, Write(k.cx, x, after, NoteRead(x, w)), c')
      && Keeps(c, c', a.em.nextTemp) && c'.current == c.current
      && Holds(LS.StepBy(a, up, returnOld).operand, c', D(if returnOld then before else after), a.em.nextTemp + 2)
  {
    hide Step, Related, Run, LS.Extends, Find, Within, Reaches, Keeps, Setting.Good, Read, Write, At, Addresses;
    hide LS.Emitter.Put, Float;
    var t, w1, op := a.em.nextTemp, NoteRead(x, w), if up then FAdd else FSub;
    var em0 := a.em.Temps(2);
    var em2 := em0.Put(Load(t, a.address)).Put(Binary(t + 1, op, Use(t), Literal(ONE)));
    var before := Read(k.cx, x, w);
    var after := Float(k.cx.ops, op, before, ONE);
    StepIs(k.cx, up, before);
    Counted(k, a.em, 0, 2, w, c);
    Fetch(k, em2, Store(Use(t + 1), a.address));
    var c2 := SimLoadStep(k, em0, t, a.address, op, x, w, c);
    StillAddresses(k, a.address, x, c, c2, t, t);
    c' := SimStore(k, em2, Use(t + 1), after, a.address, x, w1, c2, t);
    KeepsAll(c2, c', t);
    KeepsThen(c, c2, c', t, t);
    Chain(k, c, 2, c2, 1, c');
  }

  lemma StepIs(cx: Context, up: bool, v: Double)
    ensures Float(cx.ops, if up then FAdd else FSub, v, ONE) == if up then cx.ops.add(v, ONE) else cx.ops.sub(v, ONE)
  {
  }

  /** A variable loaded and the number one more or one less next to it. */
  lemma SimLoadStep(k: Setting, em: Emitter, t: Temp, a: Address, op: FloatOp, x: string, w: World, c: Config)
    returns (c': Config)
    requires k.Good() && Within(k, em.Put(Load(t, a)).Put(Binary(t + 1, op, Use(t), Literal(ONE))))
    requires At(k, em, w, c) && Addresses(k, a, x, c, t)
    ensures
      var before := Read(k.cx, x, w);
      && Reaches(k, c, 2, c') && Keeps(c, c', t) && c'.current == c.current
      && At(k, em.Put(Load(t, a)).Put(Binary(t + 1, op, Use(t), Literal(ONE))), NoteRead(x, w), c')
      && Resolve(Use(t), c'.temps) == Some(D(before))
      && Resolve(Use(t + 1), c'.temps) == Some(D(Float(k.cx.ops, op, before, ONE)))
  {
    hide Step, Related, Run, LS.Extends, Find, Within, Reaches, Keeps, Setting.Good, At, Addresses, LS.Emitter.Put;
    hide Float;
    var w1, i, before := NoteRead(x, w), Binary(t + 1, op, Use(t), Literal(ONE)), Read(k.cx, x, w);
    var em1 := em.Put(Load(t, a));
    Fetch(k, em1, i);
    Watch(k, em, w, w1, c);
    var c1 := SimLoad(k, em, t, a, x, w1, c);
    c' := SimBinary(k, em1, t + 1, op, Use(t), before, Literal(ONE), ONE, w1, c1);
    KeepsDefined(c1, c', t + 1, D(Float(k.cx.ops, op, before, ONE)), t);
    KeepsThen(c, c1, c', t, t);
    Chain(k, c, 1, c1, 1, c');
  }

  lemma {:induction false} SimCondition(k: Setting, e: Expr, em: Emitter, w: World, c: Config)
    returns (n: nat, c': Config)
    requires ConditionJoins(e)
    requires k.Good() && Within(k, LS.Condition(k.cx.locals, e, em).em) && At(k, em, w, c)
    ensures Computed(k, em, LS.Condition(k.cx.locals, e, em), Eval(k.cx, e, w).world,
                     B(k.cx.ops.Truthy(Eval(k.cx, e, w).value)), c, n, c')
    ensures !ConditionForks(e) ==> c'.current == c.current
    decreases e, if LS.IsLogical(e) then 0 else 1, 2
  {
    hide Step, Related, Run, LS.Extends, Find, Within, Reaches, At, Keeps, Setting.Good;
    hide Computed, Eval, LS.Number, LS.Condition, NumberJoins, ConditionJoins, NumberForks;
    match e
    case Compare(_, _, _) =>
      if ComparesNumbers(e) {
        n, c' := SimCompareNumbers(k, e, em, w, c);
      } else {
        n, c' := SimCompareValues(k, e, em, w, c);
      }
    case And(_, _) => n, c' := SimAnd(k, e, em, w, c);
    case Or(_, _) => n, c' := SimOr(k, e, em, w, c);
    case Conditional(_, _, _) =>
      TernaryForms(e);
      if BranchesToJoin(e) {
        n, c' := SimJoin(AsCondition, k, e, em, w, c);
      } else {
        n, c' := SimChoice(AsCondition, k, e, em, w, c);
      }
    case _ => n, c' := SimTruth(k, e, em, w, c);
  }

  lemma TruthIs(cx: Context, e: Expr, em: Emitter)
    requires !LS.IsLogical(e) && !e.Conditional?
    ensures
      var r := LS.Number(cx.locals, e, em);
      LS.Condition(cx.locals, e, em) == LS.Last(FCmp(r.em.nextTemp, NotEqual, r.operand, Literal(ZERO)), r.em)
    ensures ConditionJoins(e) == NumberJoins(e) && ConditionForks(e) == NumberForks(e)
  {
    hide LS.Last, LS.Number, NumberJoins, NumberForks;
  }

  lemma {:induction false} SimTruth(k: Setting, e: Expr, em: Emitter, w: World, c: Config) returns (n: nat, c': Config)
    requires !LS.IsLogical(e) && !e.Conditional? && ConditionJoins(e)
    requires k.Good() && Within(k, LS.Condition(k.cx.locals, e, em).em) && At(k, em, w, c)
    ensures Computed(k, em, LS.Condition(k.cx.locals, e, em), Eval(k.cx, e, w).world,
                     B(k.cx.ops.Truthy(Eval(k.cx, e, w).value)), c, n, c')
    ensures !ConditionForks(e) ==> c'.current == c.current
    decreases e, 1, 1
  {
    hide Step, Related, Run, LS.Extends, Find, Within, Reaches, At, Keeps, Setting.Good, LS.Last;
    hide Eval, LS.Number, LS.Condition, NumberJoins, ConditionJoins, NumberForks, ConditionForks;
    TruthIs(k.cx, e, em);
    var r, v := LS.Number(k.cx.locals, e, em), Eval(k.cx, e, w);
    var i := FCmp(r.em.nextTemp, NotEqual, r.operand, Literal(ZERO));
    Ends(k, r.em, i);
    var n1, c1 := SimNumber(k, e, em, w, c);
    c' := SimLast(k, r.em, i, v.world, c1, B(k.cx.ops.Truthy(v.value)));
    Then(k, em, c, n1, c1, r.em, 1, c');
    n := n1 + 1;
  }

  lemma ComparedAsNumbers(cx: Context, e: Expr, em: Emitter, w: World)
    requires e.Compare? && ComparesNumbers(e)
    ensures
      var l := LS.Number(cx.locals, e.left, em);
      var r := LS.Number(cx.locals, e.right, l.em);
      LS.Condition(cx.locals, e, em) == LS.Last(FCmp(r.em.nextTemp, e.cop, l.operand, r.operand), r.em)
    ensures
      var lv := Eval(cx, e.left, w);
      var rv := Eval(cx, e.right, lv.world);
      Eval(cx, e, w) == Evaluated(FromBool(cx.ops.compare(e.cop, lv.value, rv.value)), rv.world)
    ensures ConditionJoins(e) <==> NumberJoins(e.left) && NumberJoins(e.right)
    ensures ConditionForks(e) <==> NumberForks(e.left) || NumberForks(e.right)
  {
    hide LS.Last, ComparesNumbers;
  }

  lemma {:induction false} SimCompareNumbers(k: Setting, e: Expr, em: Emitter, w: World, c: Config)
    returns (n: nat, c': Config)
    requires e.Compare? && ComparesNumbers(e) && ConditionJoins(e)
    requires k.Good() && Within(k, LS.Condition(k.cx.locals, e, em).em) && At(k, em, w, c)
    ensures Computed(k, em, LS.Condition(k.cx.locals, e, em), Eval(k.cx, e, w).world,
                     B(k.cx.ops.Truthy(Eval(k.cx, e, w).value)), c, n, c')
    ensures !ConditionForks(e) ==> c'.current == c.current
    decreases e, 0, 1
  {
    hide Step, Related, Run, LS.Extends, Find, Within, Reaches, At, Keeps, Setting.Good, LS.Last;
    hide ComparesNumbers, Eval, LS.Number, LS.Condition, NumberJoins, ConditionJoins, NumberForks, ConditionForks;
    ComparedAsNumbers(k.cx, e, em, w);
    var ls := k.cx.locals;
    var l, lv := LS.Number(ls, e.left, em), Eval(k.cx, e.left, w);
    var r, rv := LS.Number(ls, e.right, l.em), Eval(k.cx, e.right, lv.world);
    var i := FCmp(r.em.nextTemp, e.cop, l.operand, r.operand);
    Ends(k, r.em, i);
    Earlier(k, l.em, r.em);
    Grows(em, l.em, r.em);
    var n1, c1 := SimNumber(k, e.left, em, w, c);
    var n2, c2 := SimNumber(k, e.right, l.em, lv.world, c1);
    StillHolds(l.operand, D(lv.value), c1, c2, l.em.nextTemp, l.em.nextTemp);
    LogicalIsBool(k, e, w);
    c' := SimLast(k, r.em, i, rv.world, c2, B(k.cx.ops.compare(e.cop, lv.value, rv.value)));
    Then(k, em, c, n1, c1, l.em, n2, c2);
    Then(k, em, c, n1 + n2, c2, r.em, 1, c');
    n := n1 + n2 + 1;
  }

  /** Text and number of one operand: the operand runs twice. */
  lemma {:induction false} SimTwice(k: Setting, e: Expr, em: Emitter, w: World, c: Config) returns (n: nat, c': Config)
    requires TextJoins(e) && NumberJoins(e)
    requires k.Good() && Within(k, LS.Number(k.cx.locals, e, LS.CapturedText(k.cx.locals, e, em).em).em)
      && At(k, em, w, c)
    ensures
      var t, v := LS.CapturedText(k.cx.locals, e, em), Eval(k.cx, e, w);
      var r, v2 := LS.Number(k.cx.locals, e, t.em), Eval(k.cx, e, v.world);
      Computed(k, em, r, v2.world, D(v2.value), c, n, c') && Holds(t.operand, c', Text(v.value), r.em.nextTemp)
    ensures !TextForks(e) && !NumberForks(e) ==> c'.current == c.current
    decreases e, 4
  {
    hide Step, Related, Run, LS.Extends, Find, Within, Reaches, At, Keeps, Setting.Good, Eval;
    var ls := k.cx.locals;
    var t, v := LS.CapturedText(ls, e, em), Eval(k.cx, e, w);
    var r := LS.Number(ls, e, t.em);
    Earlier(k, t.em, r.em);
    Grows(em, t.em, r.em);
    var n1, c1 := SimCaptured(k, e, em, w, c);
    var n2, c2 := SimNumber(k, e, t.em, v.world, c1);
    StillHolds(t.operand, Text(v.value), c1, c2, t.em.nextTemp, t.em.nextTemp);
    Then(k, em, c, n1, c1, t.em, n2, c2);
    n, c' := n1 + n2, c2;
  }

  lemma ComparedTwice(cx: Context, e: Expr, w: World)
    requires e.Compare? && !ComparesNumbers(e) && cx.reading.AsEmitted?
    ensures
      var l := Eval(cx, e.left, Eval(cx, e.left, w).world);
      var r := Eval(cx, e.right, Eval(cx, e.right, l.world).world);
      Eval(cx, e, w) == Evaluated(FromBool(cx.ops.compare(e.cop, l.value, r.value)), r.world)
  {
  }

  lemma ComparedAsText(ls: set<string>, e: Expr, em: Emitter)
    requires e.Compare? && !ComparesNumbers(e)
    ensures
      var lt := LS.CapturedText(ls, e.left, em);
      var l := LS.Number(ls, e.left, lt.em);
      var rt := LS.CapturedText(ls, e.right, l.em);
      var r := LS.Number(ls, e.right, rt.em);
      LS.Condition(ls, e, em)
        == LS.Last(CompareValues(r.em.nextTemp, lt.operand, l.operand, rt.operand, r.operand, e.cop), r.em)
    ensures ConditionJoins(e) <==>
      NumberJoins(e.left) && NumberJoins(e.right) && TextJoins(e.left) && TextJoins(e.right)
    ensures ConditionForks(e) <==>
      NumberForks(e.left) || NumberForks(e.right) || TextForks(e.left) || TextForks(e.right)
  {
    hide LS.Last, LS.CapturedText, LS.Number, ComparesNumbers, NumberJoins, TextJoins, NumberForks, TextForks;
  }

  /** Both operands of a comparison, each as text and as number. */
  lemma {:induction false} SimOperands(k: Setting, e: Expr, em: Emitter, w: World, c: Config)
    returns (n: nat, c': Config)
    requires e.Compare? && TextJoins(e.left) && NumberJoins(e.left) && TextJoins(e.right) && NumberJoins(e.right)
    requires
      var l := LS.Number(k.cx.locals, e.left, LS.CapturedText(k.cx.locals, e.left, em).em);
      Within(k, LS.Number(k.cx.locals, e.right, LS.CapturedText(k.cx.locals, e.right, l.em).em).em)
    requires k.Good() && At(k, em, w, c)
    ensures
      var lt, lv := LS.CapturedText(k.cx.locals, e.left, em), Eval(k.cx, e.left, w);
      var l, lv2 := LS.Number(k.cx.locals, e.left, lt.em), Eval(k.cx, e.left, lv.world);
      var rt, rv := LS.CapturedText(k.cx.locals, e.right, l.em), Eval(k.cx, e.right, lv2.world);
      var r, rv2 := LS.Number(k.cx.locals, e.right, rt.em), Eval(k.cx, e.right, rv.world);
      && Computed(k, em, r, rv2.world, D(rv2.value), c, n, c') && Holds(lt.operand, c', Text(lv.value), l.em.nextTemp)
      && Holds(l.operand, c', D(lv2.value), l.em.nextTemp) && Holds(rt.operand, c', Text(rv.value), r.em.nextTemp)
      && LS.Extends(em, r.em)
    ensures !TextForks(e.left) && !NumberForks(e.left) && !TextForks(e.right) && !NumberForks(e.right) ==>
      c'.current == c.current
    decreases e, 0, 0
  {
    hide Step, Related, Run, LS.Extends, Find, Within, Reaches, At, Keeps, Setting.Good, Eval, LS.Number;
    hide LS.CapturedText;
    hide NumberJoins, TextJoins, NumberForks, TextForks;
    var ls := k.cx.locals;
    var lt, lv := LS.CapturedText(ls, e.left, em), Eval(k.cx, e.left, w);
    var l, lv2 := LS.Number(ls, e.left, lt.em), Eval(k.cx, e.left, lv.world);
    var rt := LS.CapturedText(ls, e.right, l.em);
    var r := LS.Number(ls, e.right, rt.em);
    Grows(l.em, rt.em, r.em);
    Earlier(k, l.em, r.em);
    Grows(em, lt.em, l.em);
    Grows(em, l.em, r.em);
    var n1, c1 := SimTwice(k, e.left, em, w, c);
    var n2, c2 := SimTwice(k, e.right, l.em, lv2.world, c1);
    Then(k, em, c, n1, c1, l.em, n2, c2);
    StillHolds(lt.operand, Text(lv.value), c1, c2, l.em.nextTemp, l.em.nextTemp);
    StillHolds(l.operand, D(lv2.value), c1, c2, l.em.nextTemp, l.em.nextTemp);
    n, c' := n1 + n2, c2;
  }

  lemma SimCompared(k: Setting, em: Emitter, lt: Operand, l: Operand, x: Double, rt: Operand,
                    r: LS.Lowered, y: Double, cop: CompareOp,
                    w: World, c: Config, n1: nat, c1: Config) returns (n: nat, c': Config)
    requires Within(k, LS.Last(CompareValues(r.em.nextTemp, lt, l, rt, r.operand, cop), r.em).em)
      && LS.Extends(em, r.em)
    requires Computed(k, em, r, w, D(y), c, n1, c1) && Resolve(l, c1.temps) == Some(D(x))
    requires Resolve(lt, c1.temps).Some? && Resolve(lt, c1.temps).value.Text?
    requires Resolve(rt, c1.temps).Some? && Resolve(rt, c1.temps).value.Text?
    ensures Computed(k, em, LS.Last(CompareValues(r.em.nextTemp, lt, l, rt, r.operand, cop), r.em), w,
                     B(k.cx.ops.compare(cop, x, y)), c, n, c')
    ensures c'.current == c1.current
  {
    hide Step, Related, Run, LS.Extends, Find, Within, Reaches, At, Keeps, Setting.Good, LS.Last;
    var i := CompareValues(r.em.nextTemp, lt, l, rt, r.operand, cop);
    c' := SimLast(k, r.em, i, w, c1, B(k.cx.ops.compare(cop, x, y)));
    ThenComputes(k, em, c, n1, c1, r.em, LS.Last(i, r.em), w, B(k.cx.ops.compare(cop, x, y)), 1, c');
    n := n1 + 1;
  }

  lemma {:induction false} SimCompareValues(k: Setting, e: Expr, em: Emitter, w: World, c: Config)
    returns (n: nat, c': Config)
    requires e.Compare? && !ComparesNumbers(e) && ConditionJoins(e)
    requires k.Good() && Within(k, LS.Condition(k.cx.locals, e, em).em) && At(k, em, w, c)
    ensures Computed(k, em, LS.Condition(k.cx.locals, e, em), Eval(k.cx, e, w).world,
                     B(k.cx.ops.Truthy(Eval(k.cx, e, w).value)), c, n, c')
    ensures !ConditionForks(e) ==> c'.current == c.current
    decreases e, 0, 1
  {
    hide Step, Related, Run, LS.Extends, Find, Within, Reaches, At, Keeps, Setting.Good, LS.Last, Eval, LS.Number;
    hide LS.CapturedText, LS.Condition;
    hide ComparesNumbers, NumberJoins, TextJoins, ConditionJoins, NumberForks, TextForks, ConditionForks;
    LogicalIsBool(k, e, w);
    ComparedTwice(k.cx, e, w);
    ComparedAsText(k.cx.locals, e, em);
    var ls := k.cx.locals;
    var lt := LS.CapturedText(ls, e.left, em);
    var l, lv2 := LS.Number(ls, e.left, lt.em), Eval(k.cx, e.left, Eval(k.cx, e.left, w).world);
    var rt := LS.CapturedText(ls, e.right, l.em);
    var r, rv2 := LS.Number(ls, e.right, rt.em), Eval(k.cx, e.right, Eval(k.cx, e.right, lv2.world).world);
    hide Computed, Resolve;
    Ends(k, r.em, CompareValues(r.em.nextTemp, lt.operand, l.operand, rt.operand, r.operand, e.cop));
    var n1, c1 := SimOperands(k, e, em, w, c);
    n, c' := SimCompared(k, em, lt.operand, l.operand, lv2.value, rt.operand, r,
                         rv2.value, e.cop, rv2.world, c, n1, c1);
  }

  /** A block closed by a jump, read backwards. */
  lemma Closed(k: Setting, target: Label, next: Label, em: Emitter)
    requires Within(k, LS.Close(target, next, em))
    ensures Within(k, em.Put(Br(target))) && Within(k, em)
  {
    hide Within, LS.Emitter.Put;
    Fetch(k, em.Put(Br(target)), Mark(next));
    Fetch(k, em, Br(target));
  }

  /** The stretches of an emitted `&&`, all of them part of the function. */
  lemma AndParts(k: Setting, l: LS.Lowered, r: LS.Lowered)
    returns (fork: Emitter, value: Emitter, no: Emitter, end: Emitter, i: Instr)
    requires Within(k, LS.EndAnd(l, r).em) && LS.Extends(LS.BeginAnd(l), r.em)
    ensures var m := l.em.nextLabel;
      && fork == LS.BeginAnd(l) && value == LS.Close(m + 1, m + 1, r.em)
      && no == LS.Close(m + 3, m + 2, value) && end == LS.Close(m + 3, m + 3, no)
      && i == Phi(l.em.nextTemp, BoolLiteral(false), m + 2, r.operand, m + 1) && LS.EndAnd(l, r).em == end.Put(i)
      && Within(k, end.Put(i)) && Within(k, no.Put(Br(m + 3))) && Within(k, no)
      && Within(k, value.Put(Br(m + 3))) && Within(k, value) && Within(k, r.em) && Within(k, fork) && Within(k, l.em)
  {
    hide Find, Within, LS.Extends, LS.Emitter.Put, LS.Close, LS.BeginAnd;
    var m := l.em.nextLabel;
    fork := LS.BeginAnd(l);
    value := LS.Close(m + 1, m + 1, r.em);
    no := LS.Close(m + 3, m + 2, value);
    end := LS.Close(m + 3, m + 3, no);
    i := Phi(l.em.nextTemp, BoolLiteral(false), m + 2, r.operand, m + 1);
    Fetch(k, end, i);
    Closed(k, m + 3, m + 3, no);
    Closed(k, m + 3, m + 2, value);
    Closed(k, m + 1, m + 1, r.em);
    Earlier(k, fork, r.em);
    Earlier(k, l.em, fork);
  }

  lemma AndIs(cx: Context, e: Expr, em: Emitter, w: World)
    requires e.And?
    ensures
      var l := LS.Condition(cx.locals, e.left, em);
      LS.Condition(cx.locals, e, em) == LS.EndAnd(l, LS.Condition(cx.locals, e.right, LS.BeginAnd(l)))
    ensures
      var lv := Eval(cx, e.left, w);
      var rv := Eval(cx, e.right, lv.world);
      Eval(cx, e, w) == if !cx.ops.Truthy(lv.value) then Evaluated(ZERO, lv.world)
        else Evaluated(FromBool(cx.ops.Truthy(rv.value)), rv.world)
    ensures (ConditionJoins(e) <==> ConditionJoins(e.left) && ConditionJoins(e.right)) && ConditionForks(e)
  {
    hide LS.BeginAnd, LS.EndAnd;
  }

  lemma {:induction false} SimAnd(k: Setting, e: Expr, em: Emitter, w: World, c: Config) returns (n: nat, c': Config)
    requires e.And? && ConditionJoins(e)
    requires k.Good() && Within(k, LS.Condition(k.cx.locals, e, em).em) && At(k, em, w, c)
    ensures Computed(k, em, LS.Condition(k.cx.locals, e, em), Eval(k.cx, e, w).world,
                     B(k.cx.ops.Truthy(Eval(k.cx, e, w).value)), c, n, c')
    decreases e, 0, 1
  {
    hide Step, Related, Run, LS.Extends, Find, Within, Reaches, At, Keeps, LS.Emitter.Put, Setting.Good, LS.BeginAnd;
    hide LS.EndAnd, LS.Close;
    hide Eval, LS.Number, LS.Condition, NumberJoins, ConditionJoins, NumberForks, ConditionForks;
    AndIs(k.cx, e, em, w);
    var l, lv := LS.Condition(k.cx.locals, e.left, em), Eval(k.cx, e.left, w);
    var r := LS.Condition(k.cx.locals, e.right, LS.BeginAnd(l));
    var fork, value, no, end, i := AndParts(k, l, r);
    var m, b := l.em.nextLabel, k.cx.ops.Truthy(lv.value);
    LogicalIsBool(k, e, w);
    var n1, c1 := SimCondition(k, e.left, em, w, c);
    var c2 := OpensAnd(k, l, b, value, lv.world, c1);
    Then(k, em, c, n1, c1, l.em, 1, c2);
    Grows(em, l.em, fork);
    Grows(l.em, fork, r.em);
    if b {
      var rv := Eval(k.cx, e.right, lv.world);
      var n3, c3 := SimCondition(k, e.right, fork, lv.world, c2);
      c' := AndOrValue(k, r.em, value, end, i, m + 1, m + 3, no, r.operand, rv.value, rv.world, c3);
      Then(k, em, c, n1 + 1, c2, fork, n3, c3);
      Then(k, em, c, n1 + 1 + n3, c3, l.em, 3, c');
      n := n1 + 1 + n3 + 3;
    } else {
      c' := AndOrShort(k, no, end, i, m + 3, no, B(false), lv.world, c2);
      Then(k, em, c, n1 + 1, c2, l.em, 2, c');
      n := n1 + 1 + 2;
    }
  }

  lemma OpensAnd(k: Setting, l: LS.Lowered, b: bool, value: Emitter, w: World, c: Config) returns (c': Config)
    requires k.Good() && At(k, l.em, w, c) && Resolve(l.operand, c.temps) == Some(B(b))
    requires Within(k, LS.BeginAnd(l)) && Within(k, LS.Close(l.em.nextLabel + 3, l.em.nextLabel + 2, value))
    ensures Reaches(k, c, 1, c') && c'.current == Some(if b then l.em.nextLabel else l.em.nextLabel + 2)
      && Keeps(c, c', l.em.nextTemp)
    ensures At(k, if b then LS.BeginAnd(l) else LS.Close(l.em.nextLabel + 3, l.em.nextLabel + 2, value), w, c')
  {
    hide Step, Related, Run, LS.Extends, Find, Within, Reaches, Keeps, LS.Emitter.Put, Setting.Good;
    c' := Opens(k, l.operand, b, l.em.nextLabel, l.em.nextLabel + 2, l.em.Temps(1),
                value.Put(Br(l.em.nextLabel + 3)), 4, w, c);
    KeepsAll(c, c', l.em.nextTemp);
  }

  /** The stretches of an emitted `||`, all of them part of the function. */
  lemma OrParts(k: Setting, l: LS.Lowered, r: LS.Lowered)
    returns (fork: Emitter, yes: Emitter, value: Emitter, end: Emitter, i: Instr)
    requires Within(k, LS.EndOr(l, r).em) && LS.Extends(LS.BeginOr(l), r.em)
    ensures var m := l.em.nextLabel;
      && fork == LS.Fork(l.operand, m, m + 1, l.em.Temps(1).Labels(4)) && yes == LS.BeginOr(l)
        && yes == LS.Close(m + 3, m + 1, fork)
      && value == LS.Close(m + 2, m + 2, r.em) && end == LS.Close(m + 3, m + 3, value)
      && i == Phi(l.em.nextTemp, BoolLiteral(true), m, r.operand, m + 2) && LS.EndOr(l, r).em == end.Put(i)
      && Within(k, end.Put(i)) && Within(k, value.Put(Br(m + 3))) && Within(k, value)
      && Within(k, r.em) && Within(k, yes) && Within(k, fork.Put(Br(m + 3))) && Within(k, fork) && Within(k, l.em)
  {
    hide Find, Within, LS.Extends, LS.Emitter.Put, LS.Close, LS.Fork;
    var m := l.em.nextLabel;
    yes := LS.BeginOr(l);
    fork := LS.Fork(l.operand, m, m + 1, l.em.Temps(1).Labels(4));
    value := LS.Close(m + 2, m + 2, r.em);
    end := LS.Close(m + 3, m + 3, value);
    i := Phi(l.em.nextTemp, BoolLiteral(true), m, r.operand, m + 2);
    Fetch(k, end, i);
    Closed(k, m + 3, m + 3, value);
    Closed(k, m + 2, m + 2, r.em);
    Earlier(k, yes, r.em);
    Closed(k, m + 3, m + 1, fork);
    Earlier(k, l.em, yes);
  }

  lemma OrIs(cx: Context, e: Expr, em: Emitter, w: World)
    requires e.Or?
    ensures
      var l := LS.Condition(cx.locals, e.left, em);
      LS.Condition(cx.locals, e, em) == LS.EndOr(l, LS.Condition(cx.locals, e.right, LS.BeginOr(l)))
    ensures
      var lv := Eval(cx, e.left, w);
      var rv := Eval(cx, e.right, lv.world);
      Eval(cx, e, w) == if cx.ops.Truthy(lv.value) then Evaluated(ONE, lv.world)
        else Evaluated(FromBool(cx.ops.Truthy(rv.value)), rv.world)
    ensures (ConditionJoins(e) <==> ConditionJoins(e.left) && ConditionJoins(e.right)) && ConditionForks(e)
  {
    hide LS.BeginOr, LS.EndOr;
  }

  lemma OpensOr(k: Setting, l: LS.Lowered, b: bool, fork: Emitter, w: World, c: Config) returns (c': Config)
    requires k.Good() && At(k, l.em, w, c) && Resolve(l.operand, c.temps) == Some(B(b))
    requires fork == LS.Fork(l.operand, l.em.nextLabel, l.em.nextLabel + 1, l.em.Temps(1).Labels(4))
    requires Within(k, fork) && Within(k, LS.Close(l.em.nextLabel + 3, l.em.nextLabel + 1, fork))
    ensures Reaches(k, c, 1, c') && c'.current == Some(if b then l.em.nextLabel else l.em.nextLabel + 1)
      && Keeps(c, c', l.em.nextTemp)
    ensures c'.temps == c.temps
      && At(k, if b then fork else LS.Close(l.em.nextLabel + 3, l.em.nextLabel + 1, fork), w, c')
  {
    hide Step, Related, Run, LS.Extends, Find, Within, Reaches, Keeps, LS.Emitter.Put, Setting.Good, LS.Fork;
    c' := Opens(k, l.operand, b, l.em.nextLabel, l.em.nextLabel + 1, l.em.Temps(1),
                fork.Put(Br(l.em.nextLabel + 3)), 4, w, c);
    KeepsAll(c, c', l.em.nextTemp);
  }

  lemma {:induction false} SimOr(k: Setting, e: Expr, em: Emitter, w: World, c: Config) returns (n: nat, c': Config)
    requires e.Or? && ConditionJoins(e)
    requires k.Good() && Within(k, LS.Condition(k.cx.locals, e, em).em) && At(k, em, w, c)
    ensures Computed(k, em, LS.Condition(k.cx.locals, e, em), Eval(k.cx, e, w).world,
                     B(k.cx.ops.Truthy(Eval(k.cx, e, w).value)), c, n, c')
    decreases e, 0, 1
  {
    hide Step, Related, Run, LS.Extends, Find, Within, Reaches, At, Keeps, LS.Emitter.Put, Setting.Good, LS.BeginOr;
    hide LS.EndOr, LS.Close, LS.Fork;
    hide Eval, LS.Number, LS.Condition, NumberJoins, ConditionJoins, NumberForks, ConditionForks;
    OrIs(k.cx, e, em, w);
    var l, lv := LS.Condition(k.cx.locals, e.left, em), Eval(k.cx, e.left, w);
    var r := LS.Condition(k.cx.locals, e.right, LS.BeginOr(l));
    var fork, yes, value, end, i := OrParts(k, l, r);
    var m, b := l.em.nextLabel, k.cx.ops.Truthy(lv.value);
    LogicalIsBool(k, e, w);
    var n1, c1 := SimCondition(k, e.left, em, w, c);
    var c2 := OpensOr(k, l, b, fork, lv.world, c1);
    Then(k, em, c, n1, c1, l.em, 1, c2);
    Grows(em, l.em, yes);
    Grows(l.em, yes, r.em);
    if b {
      c' := AndOrShort(k, fork, end, i, m + 3, value, B(true), lv.world, c2);
      Then(k, em, c, n1 + 1, c2, l.em, 2, c');
      n := n1 + 1 + 2;
    } else {
      var rv := Eval(k.cx, e.right, lv.world);
      var n3, c3 := SimCondition(k, e.right, yes, lv.world, c2);
      c' := AndOrValue(k, r.em, value, end, i, m + 2, m + 3, value, r.operand, rv.value, rv.world, c3);
      Then(k, em, c, n1 + 1, c2, yes, n3, c3);
      Then(k, em, c, n1 + 1 + n3, c3, l.em, 3, c');
      n := n1 + 1 + n3 + 3;
    }
  }

  /** The right side has run: over its value block into the end block, where `phi` takes its value. */
  lemma AndOrValue(k: Setting, right: Emitter, value: Emitter, end: Emitter, i: Instr, valueLabel: Label,
                   endLabel: Label, beforeEnd: Emitter,
                   o: Operand, x: Double, w: World, c: Config) returns (c': Config)
    requires k.Good() && At(k, right, w, c) && Resolve(o, c.temps) == Some(B(k.cx.ops.Truthy(x)))
    requires value == LS.Close(valueLabel, valueLabel, right) && Within(k, value) && Within(k, value.Put(Br(endLabel)))
    requires end == LS.Close(endLabel, endLabel, beforeEnd) && Within(k, end.Put(i))
    requires i.Phi? && i.b == o && i.fromB == valueLabel && i.fromA != valueLabel
    ensures Reaches(k, c, 3, c') && At(k, end.Put(i), w, c') && Keeps(c, c', i.t)
    ensures Holds(Use(i.t), c', B(k.cx.ops.Truthy(x)), i.t + 1)
  {
    hide Step, Related, Run, LS.Extends, Find, Within, Reaches, LS.Emitter.Put, Setting.Good;
    Fetch(k, end, i);
    Fetch(k, right.Put(Br(valueLabel)), Mark(valueLabel));
    Fetch(k, beforeEnd.Put(Br(endLabel)), Mark(endLabel));
    var c1 := Jumps(k, right, valueLabel, right.Put(Br(valueLabel)), w, c);
    var c2 := Jumps(k, value, endLabel, beforeEnd.Put(Br(endLabel)), w, c1);
    c' := SimPhi(k, end, i, w, c2, B(k.cx.ops.Truthy(x)));
    Chain(k, c, 1, c1, 1, c2);
    Chain(k, c, 2, c2, 1, c');
  }

  /** The left side has decided: from its block into the end block, where `phi` takes the constant. */
  lemma AndOrShort(k: Setting, from: Emitter, end: Emitter, i: Instr, endLabel: Label, beforeEnd: Emitter,
                   v: Value, w: World, c: Config)
    returns (c': Config)
    requires k.Good() && At(k, from, w, c) && Within(k, from.Put(Br(endLabel)))
    requires end == LS.Close(endLabel, endLabel, beforeEnd) && Within(k, end.Put(i))
    requires i.Phi? && c.current == Some(i.fromA) && Resolve(i.a, c.temps) == Some(v)
    ensures Reaches(k, c, 2, c') && At(k, end.Put(i), w, c') && Keeps(c, c', i.t) && Holds(Use(i.t), c', v, i.t + 1)
  {
    hide Step, Related, Run, LS.Extends, Find, Within, Reaches, LS.Emitter.Put, Setting.Good;
    Fetch(k, end, i);
    Fetch(k, beforeEnd.Put(Br(endLabel)), Mark(endLabel));
    var c1 := Jumps(k, from, endLabel, beforeEnd.Put(Br(endLabel)), w, c);
    c' := SimPhi(k, end, i, w, c1, v);
    Chain(k, c, 1, c1, 1, c');
  }

  lemma FormattedIs(ls: set<string>, e: Expr, em: Emitter)
    requires !e.Conditional?
    ensures var r := LS.Number(ls, e, em); LS.TextOf(ls, e, em) == LS.Last(FormatNumber(r.em.nextTemp, r.operand), r.em)
    ensures TextJoins(e) == NumberJoins(e) && TextForks(e) == NumberForks(e)
  {
    hide LS.Last, LS.Number, NumberJoins, NumberForks;
  }

  lemma CapturedIs(ls: set<string>, e: Expr, em: Emitter)
    ensures var r := LS.TextOf(ls, e, em);
      LS.CapturedText(ls, e, em) == LS.Last(Capture(r.em.nextTemp, r.operand), r.em)
  {
    hide LS.Last, LS.TextOf;
  }

  lemma {:induction false} SimText(k: Setting, e: Expr, em: Emitter, w: World, c: Config) returns (n: nat, c': Config)
    requires TextJoins(e)
    requires k.Good() && Within(k, LS.TextOf(k.cx.locals, e, em).em) && At(k, em, w, c)
    ensures Computed(k, em, LS.TextOf(k.cx.locals, e, em), Eval(k.cx, e, w).world,
                     Text(Eval(k.cx, e, w).value), c, n, c')
    ensures !TextForks(e) ==> c'.current == c.current
    decreases e, 2, 2
  {
    hide Step, Related, Run, LS.Extends, Find, Within, Reaches, At, Keeps, Setting.Good, LS.Last;
    hide Eval, LS.Number, LS.TextOf, NumberJoins, TextJoins, NumberForks, TextForks;
    if e.Conditional? {
      TernaryForms(e);
      n, c' := SimJoin(AsText, k, e, em, w, c);
    } else {
      FormattedIs(k.cx.locals, e, em);
      var r, v := LS.Number(k.cx.locals, e, em), Eval(k.cx, e, w);
      var i := FormatNumber(r.em.nextTemp, r.operand);
      Ends(k, r.em, i);
      var n1, c1 := SimNumber(k, e, em, w, c);
      c' := SimLast(k, r.em, i, v.world, c1, Text(v.value));
      Then(k, em, c, n1, c1, r.em, 1, c');
      n := n1 + 1;
    }
  }

  lemma {:induction false} SimCaptured(k: Setting, e: Expr, em: Emitter, w: World, c: Config)
    returns (n: nat, c': Config)
    requires TextJoins(e)
    requires k.Good() && Within(k, LS.CapturedText(k.cx.locals, e, em).em) && At(k, em, w, c)
    ensures Computed(k, em, LS.CapturedText(k.cx.locals, e, em), Eval(k.cx, e, w).world,
                     Text(Eval(k.cx, e, w).value), c, n, c')
    ensures !TextForks(e) ==> c'.current == c.current
    decreases e, 3, 0
  {
    hide Step, Related, Run, LS.Extends, Find, Within, Reaches, At, Keeps, Setting.Good, LS.Last;
    hide Eval, LS.TextOf, LS.CapturedText, TextJoins, TextForks;
    CapturedIs(k.cx.locals, e, em);
    var r, v := LS.TextOf(k.cx.locals, e, em), Eval(k.cx, e, w);
    var i := Capture(r.em.nextTemp, r.operand);
    Ends(k, r.em, i);
    var n1, c1 := SimText(k, e, em, w, c);
    c' := SimLast(k, r.em, i, v.world, c1, Text(v.value));
    Then(k, em, c, n1, c1, r.em, 1, c');
    n := n1 + 1;
  }

  lemma SimAs(form: Form, k: Setting, e: Expr, em: Emitter, w: World, c: Config) returns (n: nat, c': Config)
    requires JoinsAs(form, e)
    requires k.Good() && Within(k, LowerAs(form, k.cx.locals, e, em).em) && At(k, em, w, c)
    ensures Computed(k, em, LowerAs(form, k.cx.locals, e, em), Eval(k.cx, e, w).world,
                     ValueAs(form, k.cx.ops, Eval(k.cx, e, w).value), c, n, c')
    ensures !ForksAs(form, e) ==> c'.current == c.current
    decreases e, 4
  {
    hide Within, At, Computed, Setting.Good, NumberJoins, ConditionJoins, TextJoins, NumberForks, ConditionForks;
    hide TextForks;
    match form
    case AsNumber => n, c' := SimNumber(k, e, em, w, c);
    case AsCondition => n, c' := SimCondition(k, e, em, w, c);
    case AsText => n, c' := SimCaptured(k, e, em, w, c);
  }

  /** A joined ternary: the test, the branch taken and the `phi`. */
  lemma {:induction false} SimJoin(form: Form, k: Setting, e: Expr, em: Emitter, w: World, c: Config)
    returns (n: nat, c': Config)
    requires JoinedAs(form, e) && ConditionJoins(e.test) && JoinsAs(form, e.ifTrue) && JoinsAs(form, e.ifFalse)
    requires !ForksAs(form, e.ifTrue) && !ForksAs(form, e.ifFalse)
    requires k.Good() && Within(k, TernaryAs(form, k.cx.locals, e, em).em) && At(k, em, w, c)
    ensures
      var v := Eval(k.cx, e, w);
      Computed(k, em, TernaryAs(form, k.cx.locals, e, em), v.world, ValueAs(form, k.cx.ops, v.value), c, n, c')
    decreases e, 0, 1
  {
    hide Step, Related, Run, LS.Extends, Find, Within, Reaches, At, Keeps, LS.Emitter.Put, Setting.Good, LS.Fork;
    hide LS.Close, LS.Join;
    hide Eval, LowerAs, TernaryAs, LS.Condition, ForksAs, JoinsAs, ConditionJoins, ConditionForks, ValueAs;
    TernaryIs(form, k.cx.locals, e, em);
    TernaryMeans(k.cx, e, w);
    var j, r, tested := PiecesOf(form, k.cx.locals, e, em), TernaryAs(form, k.cx.locals, e, em), Eval(k.cx, e.test, w);
    var m, b := j.test.em.nextLabel, k.cx.ops.Truthy(tested.value);
    Backwards(k, j.test.em, j.fork, j.first.em, j.mid, j.second.em, r.em);
    var n1, c1 := SimCondition(k, e.test, em, w, c);
    var c2 := OpensTernary(k, em, j, b, m, tested.world, c, n1, c1);
    Grows(em, j.test.em, j.fork);
    Grows(em, j.fork, j.mid);
    if b {
      n, c' := SimTaken(form, k, em, e.ifTrue, j.fork, tested.world, c, n1 + 1, c2);
    } else {
      n, c' := SimTaken(form, k, em, e.ifFalse, j.mid, tested.world, c, n1 + 1, c2);
    }
    var v := Eval(k.cx, if b then e.ifTrue else e.ifFalse, tested.world);
    c' := JoinsTaken(k, em, b, j.first, j.mid, j.second, m, ValueAs(form, k.cx.ops, v.value), v.world, c, n, c');
    n := n + 2;
  }

  /** A branch that opens no block of its own, after what went before it. */
  lemma {:induction false} SimTaken(form: Form, k: Setting, em: Emitter, branch: Expr, start: Emitter,
                                    w: World, c: Config, n: nat, c1: Config)
    returns (n': nat, c': Config)
    requires JoinsAs(form, branch) && !ForksAs(form, branch) && k.Good() && LS.Extends(em, start)
    requires Within(k, LowerAs(form, k.cx.locals, branch, start).em)
    requires Reaches(k, c, n, c1) && Keeps(c, c1, em.nextTemp) && At(k, start, w, c1)
    ensures
      var r, v := LowerAs(form, k.cx.locals, branch, start), Eval(k.cx, branch, w);
      && Reaches(k, c, n', c') && Keeps(c, c', em.nextTemp) && At(k, r.em, v.world, c') && c'.current == c1.current
      && Resolve(r.operand, c'.temps) == Some(ValueAs(form, k.cx.ops, v.value))
    decreases branch, 5
  {
    hide Step, Related, Run, LS.Extends, Find, Within, Reaches, At, Keeps, Setting.Good;
    hide Eval, LowerAs, ForksAs, JoinsAs, ValueAs;
    var m, c2 := SimAs(form, k, branch, start, w, c1);
    Then(k, em, c, n, c1, start, m, c2);
    n', c' := n + m, c2;
  }

  /** A ternary that is not joined: both branches run, and neither changes a cell. */
  lemma {:induction false} SimChoice(form: Form, k: Setting, e: Expr, em: Emitter, w: World, c: Config)
    returns (n: nat, c': Config)
    requires e.Conditional? && !BranchesToJoin(e) && !form.AsText?
    requires ConditionJoins(e.test) && JoinsAs(form, e.ifTrue) && JoinsAs(form, e.ifFalse)
    requires k.Good() && Within(k, TernaryAs(form, k.cx.locals, e, em).em) && At(k, em, w, c)
    ensures
      var v := Eval(k.cx, e, w);
      Computed(k, em, TernaryAs(form, k.cx.locals, e, em), v.world, ValueAs(form, k.cx.ops, v.value), c, n, c')
    ensures !ConditionForks(e.test) && !ForksAs(form, e.ifTrue) && !ForksAs(form, e.ifFalse) ==> c'.current == c.current
    decreases e, 0, 1
  {
    hide Step, Related, Run, LS.Extends, Find, Within, Reaches, At, Keeps, Setting.Good, LS.Last;
    hide Eval, LowerAs, TernaryAs, LS.Condition, ForksAs, JoinsAs, ConditionJoins, ConditionForks, ValueAs;
    ChoiceIs(form, k.cx.locals, e, em);
    TernaryMeans(k.cx, e, w);
    var tested := Eval(k.cx, e.test, w);
    NoEffect(k.cx, e.ifTrue, tested.world);
    NoEffect(k.cx, e.ifFalse, tested.world);
    var test := LS.Condition(k.cx.locals, e.test, em);
    var first := LowerAs(form, k.cx.locals, e.ifTrue, test.em);
    var second := LowerAs(form, k.cx.locals, e.ifFalse, first.em);
    var b, t, f := k.cx.ops.Truthy(tested.value), Eval(k.cx, e.ifTrue, tested.world),
        Eval(k.cx, e.ifFalse, tested.world);
    var v := if b then t else f;
    Ends(k, second.em, Select(second.em.nextTemp, test.operand, first.operand, second.operand));
    Earlier(k, first.em, second.em);
    Earlier(k, test.em, first.em);
    var n1, c1 := SimCondition(k, e.test, em, w, c);
    var n2, c2 := SimAs(form, k, e.ifTrue, test.em, tested.world, c1);
    Watch(k, first.em, t.world, tested.world, c2);
    var n3, c3 := SimAs(form, k, e.ifFalse, first.em, tested.world, c2);
    Watch(k, second.em, f.world, v.world, c3);
    Then(k, em, c, n1, c1, test.em, n2, c2);
    Grows(em, test.em, first.em);
    Then(k, em, c, n1 + n2, c2, first.em, n3, c3);
    Grows(em, first.em, second.em);
    Grows(test.em, first.em, second.em);
    StillHolds(test.operand, B(b), c1, c2, test.em.nextTemp, test.em.nextTemp);
    StillHolds(test.operand, B(b), c2, c3, test.em.nextTemp, first.em.nextTemp);
    StillHolds(first.operand, ValueAs(form, k.cx.ops, t.value), c2, c3, first.em.nextTemp, first.em.nextTemp);
    c' := SimSelect(k, second.em, test.operand, b, first.operand, ValueAs(form, k.cx.ops, t.value), second.operand,
                    ValueAs(form, k.cx.ops, f.value), v.world, c3);
    Then(k, em, c, n1 + n2 + n3, c3, second.em, 1, c');
    n := n1 + n2 + n3 + 1;
  }
}

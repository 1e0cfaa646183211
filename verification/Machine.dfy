/** A program-counter machine for the emitted branch code. Labels and temporaries are the
    counter values that make their names unique; the readable prefixes are dropped. */
module Machine {
  import opened Options
  import opened Syntax
  import opened Meaning

  type Label = nat
  type Temp = nat

  datatype Operand = Use(temp: Temp) | Literal(value: Double) | BoolLiteral(flag: bool) | IntLiteral(number: int)

  /** `Slot` goes through a computed pointer into the persistent state, `Cell` is the
      function's own stack cell named by the temporary that allocated it. */
  datatype Address = Slot(pointer: Temp) | Cell(cell: Temp)

  datatype FloatOp = FAdd | FSub | FMul | FDiv

  datatype Instr =
    | Mark(name: Label)
    | Br(target: Label)
    | CondBr(cond: Operand, onTrue: Label, onFalse: Label)
    | Ret
    | SlotPointer(t: Temp, variable: string)
    | Load(t: Temp, address: Address)
    | Store(value: Operand, address: Address)
    | Binary(t: Temp, op: FloatOp, a: Operand, b: Operand)
    | CallTrunc(t: Temp, a: Operand)
    | CallPow(t: Temp, a: Operand, b: Operand)
    | FCmp(t: Temp, cop: CompareOp, a: Operand, b: Operand)
    | Select(t: Temp, cond: Operand, a: Operand, b: Operand)
    | BoolToDouble(t: Temp, a: Operand)
    | Invert(t: Temp, a: Operand)
    | Phi(t: Temp, a: Operand, fromA: Label, b: Operand, fromB: Label)
    | CallBuiltin(t: Temp, which: BuiltinName)
    | FormatNumber(t: Temp, a: Operand)
    | Capture(t: Temp, a: Operand)
    | CompareValues(t: Temp, leftText: Operand, a: Operand, rightText: Operand, b: Operand, cop: CompareOp)
    | PrintNumber(a: Operand)
    | PrintSeparator
    | PrintEnd
    | LoadRecord(t: Temp)
    | PrintText(a: Operand)
    | CallNextFile
    | DoubleToInt(t: Temp, a: Operand)
    | RequestExit(a: Operand)

  datatype Value = D(double: Double) | B(flag: bool) | Text(source: Double) | Record
    | I(number: int) | SlotOf(variable: string)

  datatype Memory = Memory(
    persistent: map<string, Double>,
    cells: map<Temp, Double>,
    output: seq<Event>,
    exit: Option<int>)

  /** `current` is the block being run and `previous` the one control came from; the entry
      block has no label. */
  datatype Config = Config(
    pc: nat,
    current: Option<Label>,
    previous: Option<Label>,
    temps: map<Temp, Value>,
    memory: Memory)

  /** What an instruction needs to know from outside. */
  datatype Host = Host(ops: FloatOps, builtins: BuiltinValues)

  function Resolve(o: Operand, temps: map<Temp, Value>): Option<Value> {
    match o
    case Use(t) => if t in temps then Some(temps[t]) else None
    case Literal(v) => Some(D(v))
    case BoolLiteral(b) => Some(B(b))
    case IntLiteral(i) => Some(I(i))
  }

  /** The position of the first block named `l`. */
  function Find(code: seq<Instr>, l: Label): Option<nat> {
    if code == [] then None
    else if code[0] == Mark(l) then Some(0)
    else match Find(code[1..], l)
      case None => None
      case Some(i) => Some(i + 1)
  }

  function Jump(code: seq<Instr>, l: Label, c: Config): Option<Config> {
    match Find(code, l)
    case None => None
    case Some(i) => Some(c.(pc := i + 1, current := Some(l), previous := c.current))
  }

  function Define(c: Config, t: Temp, v: Value): Option<Config> {
    Some(c.(pc := c.pc + 1, temps := c.temps[t := v]))
  }

  function Continue(c: Config, memory: Memory): Option<Config> {
    Some(c.(pc := c.pc + 1, memory := memory))
  }

  function LoadFrom(a: Address, c: Config): Option<Double> {
    match a
    case Cell(t) => if t in c.memory.cells then Some(c.memory.cells[t]) else None
    case Slot(p) =>
      if p in c.temps && c.temps[p].SlotOf? then Some(Lookup(c.memory.persistent, c.temps[p].variable)) else None
  }

  function StoreTo(a: Address, v: Double, c: Config): Option<Config> {
    match a
    case Cell(t) =>
      if t in c.memory.cells then Continue(c, c.memory.(cells := c.memory.cells[t := v])) else None
    case Slot(p) =>
      if p in c.temps && c.temps[p].SlotOf?
      then Continue(c, c.memory.(persistent := c.memory.persistent[c.temps[p].variable := v]))
      else None
  }

  function Float(ops: FloatOps, op: FloatOp, x: Double, y: Double): Double {
    match op
    case FAdd => ops.add(x, y)
    case FSub => ops.sub(x, y)
    case FMul => ops.mul(x, y)
    case FDiv => ops.div(x, y)
  }

  /** One instruction. `None` is a machine that cannot go on: a missing label, an undefined
      temporary, an operand of the wrong type, a block entered without a branch, or a `phi`
      that does not name the block control came from. */
  function Step(h: Host, code: seq<Instr>, c: Config): Option<Config> {
    if c.pc >= |code| then None else
    match code[c.pc]
    case Mark(_) => None
    case Ret => None
    case Br(l) => Jump(code, l, c)
    case CondBr(o, l, m) =>
      (match Resolve(o, c.temps)
       case Some(B(b)) => Jump(code, if b then l else m, c)
       case _ => None)
    case SlotPointer(t, name) => Define(c, t, SlotOf(name))
    case Load(t, a) =>
      (match LoadFrom(a, c)
       case Some(v) => Define(c, t, D(v))
       case None => None)
    case Store(o, a) =>
      (match Resolve(o, c.temps)
       case Some(D(v)) => StoreTo(a, v, c)
       case _ => None)
    case Binary(t, op, x, y) =>
      (match (Resolve(x, c.temps), Resolve(y, c.temps))
       case (Some(D(v)), Some(D(u))) => Define(c, t, D(Float(h.ops, op, v, u)))
       case _ => None)
    case CallTrunc(t, x) =>
      (match Resolve(x, c.temps)
       case Some(D(v)) => Define(c, t, D(h.ops.trunc(v)))
       case _ => None)
    case CallPow(t, x, y) =>
      (match (Resolve(x, c.temps), Resolve(y, c.temps))
       case (Some(D(v)), Some(D(u))) => Define(c, t, D(h.ops.pow(v, u)))
       case _ => None)
    case FCmp(t, op, x, y) =>
      (match (Resolve(x, c.temps), Resolve(y, c.temps))
       case (Some(D(v)), Some(D(u))) => Define(c, t, B(h.ops.compare(op, v, u)))
       case _ => None)
    case Select(t, o, x, y) =>
      (match (Resolve(o, c.temps), Resolve(x, c.temps), Resolve(y, c.temps))
       case (Some(B(b)), Some(v), Some(u)) => Define(c, t, if b then v else u)
       case _ => None)
    case BoolToDouble(t, o) =>
      (match Resolve(o, c.temps)
       case Some(B(b)) => Define(c, t, D(FromBool(b)))
       case _ => None)
    case Invert(t, o) =>
      (match Resolve(o, c.temps)
       case Some(B(b)) => Define(c, t, B(!b))
       case _ => None)
    case Phi(t, x, fromX, y, fromY) =>
      (match if c.previous == Some(fromX) then Resolve(x, c.temps)
             else if c.previous == Some(fromY) then Resolve(y, c.temps)
             else None
       case Some(v) => Define(c, t, v)
       case None => None)
    case CallBuiltin(t, which) => Define(c, t, D(h.builtins.Get(which)))
    case FormatNumber(t, x) =>
      (match Resolve(x, c.temps)
       case Some(D(v)) => Define(c, t, Text(v))
       case _ => None)
    case Capture(t, x) =>
      (match Resolve(x, c.temps)
       case Some(Text(v)) => Define(c, t, Text(v))
       case _ => None)
    case CompareValues(t, l, x, r, y, op) =>
      // Neither operand is flagged as text, so the numbers decide.
      (match (Resolve(l, c.temps), Resolve(x, c.temps), Resolve(r, c.temps), Resolve(y, c.temps))
       case (Some(Text(_)), Some(D(v)), Some(Text(_)), Some(D(u))) => Define(c, t, B(h.ops.compare(op, v, u)))
       case _ => None)
    case PrintNumber(x) =>
      (match Resolve(x, c.temps)
       case Some(D(v)) => Output(c, PrintedNumber(v))
       case _ => None)
    case PrintSeparator => Output(c, PrintedSeparator)
    case PrintEnd => Output(c, PrintedEnd)
    case LoadRecord(t) => Define(c, t, Record)
    case PrintText(x) => if Resolve(x, c.temps) == Some(Record) then Output(c, PrintedRecord) else None
    case CallNextFile => Output(c, SkippedFile)
    case DoubleToInt(t, x) =>
      (match Resolve(x, c.temps)
       case Some(D(v)) => Define(c, t, I(h.ops.status(v)))
       case _ => None)
    case RequestExit(x) =>
      (match Resolve(x, c.temps)
       case Some(I(i)) => Continue(c, c.memory.(exit := Some(i)))
       case _ => None)
  }

  function Output(c: Config, event: Event): Option<Config> {
    Continue(c, c.memory.(output := c.memory.output + [event]))
  }

  function Run(h: Host, code: seq<Instr>, c: Config, steps: nat): Option<Config>
    decreases steps
  {
    if steps == 0 then Some(c) else
    match Step(h, code, c)
    case None => None
    case Some(c1) => Run(h, code, c1, steps - 1)
  }

  lemma {:induction false} RunThen(h: Host, code: seq<Instr>, c: Config, m: nat, n: nat)
    requires Run(h, code, c, m).Some?
    ensures Run(h, code, c, m + n) == Run(h, code, Run(h, code, c, m).value, n)
    decreases m
  {
    hide Step;
    if m > 0 {
      RunThen(h, code, Step(h, code, c).value, m - 1, n);
    }
  }
}

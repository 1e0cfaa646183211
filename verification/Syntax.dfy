/** The numeric fragment of the AWK syntax tree that the backend lowers to branch code:
    expressions and statements over names inferred numeric, and the normalized program
    shape (BEGIN actions, record items, END actions). */
module Syntax {

  import opened Options

  /** A double is its bit pattern; arithmetic on it is supplied by `FloatOps`. */
  datatype Double = Double(bits: int)

  const ZERO := Double(0)
  const ONE := Double(0x3ff0000000000000)

  datatype ArithOp = Add | Sub | Mul | Div | Mod | Pow

  datatype AssignOp = Plain | Compound(op: ArithOp)

  datatype CompareOp = Less | LessEqual | Greater | GreaterEqual | Equal | NotEqual

  datatype SignOp = UPlus | UMinus | Not

  /** The numbers the runtime keeps itself: read through a call, never assigned here. */
  datatype BuiltinName = NR | FNR | NF

  datatype Expr =
    | Number(value: Double)
    | Name(name: string)
    | Builtin(which: BuiltinName)
    | Assign(target: string, aop: AssignOp, right: Expr)
    | Sign(sop: SignOp, operand: Expr)
    | Increment(name: string, up: bool, returnOld: bool)
    | Arith(op: ArithOp, left: Expr, right: Expr)
    | Compare(cop: CompareOp, left: Expr, right: Expr)
    | And(left: Expr, right: Expr)
    | Or(left: Expr, right: Expr)
    | Conditional(test: Expr, ifTrue: Expr, ifFalse: Expr)

  datatype Stmt =
    | AssignStmt(target: string, aop: AssignOp, value: Expr)
    | ExprStmt(value: Expr)
    | Print(arguments: seq<Expr>)
    | Block(statements: seq<Stmt>)
    | If(condition: Expr, thenBranch: Stmt, elseBranch: Option<Stmt>)
    | While(condition: Expr, body: Stmt)
    | DoWhile(body: Stmt, condition: Expr)
    | For(init: seq<Expr>, test: Option<Expr>, update: seq<Expr>, body: Stmt)
    | BreakStmt
    | ContinueStmt
    | NextStmt
    | NextFileStmt
    | ExitStmt(status: Option<Expr>)

  type Action = seq<Stmt>

  datatype Pattern =
    | Always
    | When(test: Expr)
    | Range(left: Expr, right: Expr, state: string)

  /** One record rule; a rule without an action prints the record. */
  datatype RecordItem = RecordItem(pattern: Pattern, action: Option<Action>)

  datatype Function = Function(params: set<string>, body: Action)

  datatype Program = Program(begin: seq<Action>, items: seq<RecordItem>, end: seq<Action>, functions: seq<Function>)

  /** Evaluating the expression may change a variable. */
  predicate HasSideEffects(e: Expr) {
    match e
    case Number(_) => false
    case Name(_) => false
    case Builtin(_) => false
    case Assign(_, _, _) => true
    case Sign(_, operand) => HasSideEffects(operand)
    case Increment(_, _, _) => true
    case Arith(_, l, r) => HasSideEffects(l) || HasSideEffects(r)
    case Compare(_, l, r) => HasSideEffects(l) || HasSideEffects(r)
    case And(l, r) => HasSideEffects(l) || HasSideEffects(r)
    case Or(l, r) => HasSideEffects(l) || HasSideEffects(r)
    case Conditional(c, t, f) => HasSideEffects(c) || HasSideEffects(t) || HasSideEffects(f)
  }

  /** The backend knows the value is a number and never looks at it as text. */
  predicate DefinitelyNumeric(e: Expr) {
    match e
    case Number(_) => true
    case Name(_) => true
    case Builtin(_) => true
    case Sign(_, operand) => DefinitelyNumeric(operand)
    case Increment(_, _, _) => true
    case Arith(_, l, r) => DefinitelyNumeric(l) && DefinitelyNumeric(r)
    case Assign(_, _, _) => false
    case Compare(_, _, _) => false
    case And(_, _) => false
    case Or(_, _) => false
    case Conditional(_, _, _) => false
  }

  predicate ComparesNumbers(e: Expr)
    requires e.Compare?
  {
    DefinitelyNumeric(e.left) && DefinitelyNumeric(e.right)
  }

  /** A ternary whose branch has a side effect is lowered to branches joined by `phi`;
      every other ternary evaluates both branches and selects. */
  predicate BranchesToJoin(e: Expr)
    requires e.Conditional?
  {
    HasSideEffects(e.ifTrue) || HasSideEffects(e.ifFalse)
  }
}

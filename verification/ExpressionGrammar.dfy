/** The expression grammar: tokens, trees, the thirteen levels of the recursive-descent parser as a
    function of the tokens to come, and a printer that puts parentheses where the levels need them. */
module ExpressionGrammar {
  import opened Options
  import opened Texts

  datatype Symbol =
    | LESS | LESS_EQUAL | GREATER | GREATER_EQUAL | EQUAL_EQUAL | NOT_EQUAL
    | OR_OR | AND_AND | MATCH | NOT_MATCH | IN
    | PLUS | MINUS | STAR | SLASH | PERCENT | CARET | BANG | PLUS_PLUS | MINUS_MINUS
    | EQUAL | PLUS_EQUAL | MINUS_EQUAL | STAR_EQUAL | SLASH_EQUAL | PERCENT_EQUAL | CARET_EQUAL
    | DOLLAR | QUESTION | COLON | LPAREN | RPAREN | LBRACKET | RBRACKET | COMMA
    | OTHER

  datatype Token = Str(raw: string) | Num(text: string) | Regex(raw: string) | Ident(name: string)
    | Sym(symbol: Symbol) | EOF

  type Tokens = seq<Token>

  datatype BinaryOp =
    | OrOp | AndOp | LessOp | LessEqualOp | GreaterOp | GreaterEqualOp | EqualOp | NotEqualOp
    | MatchOp | NotMatchOp | InOp | ConcatOp | AddOp | SubOp | MulOp | DivOp | ModOp | PowOp

  datatype UnaryOp = PlusOp | MinusOp | NotOp | PreInc | PreDec

  datatype PostfixOp = PostInc | PostDec

  datatype AssignmentOp = PlainSet | AddSet | SubSet | MulSet | DivSet | ModSet | PowSet

  datatype Tree =
    | StringLit(raw: string)
    | NumberLit(text: string)
    | RegexLit(raw: string)
    | Variable(name: string)
    | Call(function_: string, args: seq<Tree>)
    | Element(array_: string, subscripts: seq<Tree>)
    | FixedField(number: nat)
    | Field(index: Tree)
    | Postfix(pop: PostfixOp, operand: Tree)
    | Unary(uop: UnaryOp, operand: Tree)
    | Binary(bop: BinaryOp, left: Tree, right: Tree)
    | Ternary(test: Tree, ifTrue: Tree, ifFalse: Tree)
    | Assignment(target: Tree, aop: AssignmentOp, value: Tree)

  // ----- Which token means what -----

  function First(ts: Tokens): Token {
    if ts == [] then EOF else ts[0]
  }

  function AssignmentOpOf(t: Token): Option<AssignmentOp> {
    if !t.Sym? then None else
    match t.symbol
    case EQUAL => Some(PlainSet)
    case PLUS_EQUAL => Some(AddSet)
    case MINUS_EQUAL => Some(SubSet)
    case STAR_EQUAL => Some(MulSet)
    case SLASH_EQUAL => Some(DivSet)
    case PERCENT_EQUAL => Some(ModSet)
    case CARET_EQUAL => Some(PowSet)
    case _ => None
  }

  function ComparisonOpOf(s: Symbol): Option<BinaryOp> {
    match s
    case LESS => Some(LessOp)
    case LESS_EQUAL => Some(LessEqualOp)
    case GREATER => Some(GreaterOp)
    case GREATER_EQUAL => Some(GreaterEqualOp)
    case EQUAL_EQUAL => Some(EqualOp)
    case NOT_EQUAL => Some(NotEqualOp)
    case _ => None
  }

  function UnaryOpOf(t: Token): Option<UnaryOp> {
    if !t.Sym? then None else
    match t.symbol
    case PLUS => Some(PlusOp)
    case MINUS => Some(MinusOp)
    case BANG => Some(NotOp)
    case PLUS_PLUS => Some(PreInc)
    case MINUS_MINUS => Some(PreDec)
    case _ => None
  }

  function PostfixOpOf(t: Token): Option<PostfixOp> {
    if t == Sym(PLUS_PLUS) then Some(PostInc) else if t == Sym(MINUS_MINUS) then Some(PostDec) else None
  }

  /** Tokens that can begin an operand, and so continue a concatenation. */
  predicate StartsExpression(t: Token) {
    t.Str? || t.Num? || t.Regex? || t.Ident? || t == Sym(DOLLAR) || t == Sym(LPAREN) || UnaryOpOf(t).Some?
  }

  const ASSIGN: nat := 0
  const CONDITIONAL: nat := 1
  const OR: nat := 2
  const AND: nat := 3
  const COMPARISON: nat := 4
  const MATCHING: nat := 5
  const MEMBERSHIP: nat := 6
  const CONCAT: nat := 7
  const ADDITIVE: nat := 8
  const MULTIPLICATIVE: nat := 9
  const POWER: nat := 10
  const UNARY: nat := 11
  const POSTFIX: nat := 12
  const PRIMARY: nat := 13

  /** The levels whose operators are read in a loop, and group to the left. */
  predicate Loops(level: nat) {
    level == OR || level == AND || level == COMPARISON || level == MATCHING || level == ADDITIVE
      || level == MULTIPLICATIVE
  }

  /** The operator a level's loop takes the token for. Where redirections may follow, `>` is none. */
  function OpOf(level: nat, stop: bool, t: Token): Option<BinaryOp> {
    if !t.Sym? then None
    else if level == OR then (if t.symbol == OR_OR then Some(OrOp) else None)
    else if level == AND then (if t.symbol == AND_AND then Some(AndOp) else None)
    else if level == COMPARISON then (if stop && t.symbol == GREATER then None else ComparisonOpOf(t.symbol))
    else if level == MATCHING then (match t.symbol case MATCH => Some(MatchOp) case NOT_MATCH => Some(NotMatchOp)
                                    case _ => None)
    else if level == ADDITIVE then (match t.symbol case PLUS => Some(AddOp) case MINUS => Some(SubOp) case _ => None)
    else if level == MULTIPLICATIVE then
      (match t.symbol case STAR => Some(MulOp) case SLASH => Some(DivOp) case PERCENT => Some(ModOp) case _ => None)
    else None
  }

  function SymbolOf(op: BinaryOp): Symbol
    requires op != ConcatOp
  {
    match op
    case OrOp => OR_OR
    case AndOp => AND_AND
    case LessOp => LESS
    case LessEqualOp => LESS_EQUAL
    case GreaterOp => GREATER
    case GreaterEqualOp => GREATER_EQUAL
    case EqualOp => EQUAL_EQUAL
    case NotEqualOp => NOT_EQUAL
    case MatchOp => MATCH
    case NotMatchOp => NOT_MATCH
    case InOp => IN
    case AddOp => PLUS
    case SubOp => MINUS
    case MulOp => STAR
    case DivOp => SLASH
    case ModOp => PERCENT
    case PowOp => CARET
  }

  function LevelOfOp(op: BinaryOp): nat {
    match op
    case OrOp => OR
    case AndOp => AND
    case LessOp => COMPARISON
    case LessEqualOp => COMPARISON
    case GreaterOp => COMPARISON
    case GreaterEqualOp => COMPARISON
    case EqualOp => COMPARISON
    case NotEqualOp => COMPARISON
    case MatchOp => MATCHING
    case NotMatchOp => MATCHING
    case InOp => MEMBERSHIP
    case ConcatOp => CONCAT
    case AddOp => ADDITIVE
    case SubOp => ADDITIVE
    case MulOp => MULTIPLICATIVE
    case DivOp => MULTIPLICATIVE
    case ModOp => MULTIPLICATIVE
    case PowOp => POWER
  }

  // ----- Numbers after `$` -----

  function DigitValue(c: char): nat
    requires IsDigit(c)
  {
    (c - '0') as nat
  }

  /** A whole number in decimal, if the text is one. */
  function IntegerOf(text: string): Option<nat> {
    if text == "" || !IsDigit(text[|text| - 1]) then None
    else if |text| == 1 then Some(DigitValue(text[0]))
    else
      var front := IntegerOf(text[..|text| - 1]);
      if front.None? then None else Some(10 * front.value + DigitValue(text[|text| - 1]))
  }

  function Decimal(n: nat): string {
    if n < 10 then ['0' + n as char] else Decimal(n / 10) + ['0' + (n % 10) as char]
  }

  // ----- The parser -----

  datatype Parsed = Parsed(tree: Tree, rest: Tokens)

  datatype ParsedList = ParsedList(trees: seq<Tree>, rest: Tokens)

  predicate IsLvalue(e: Tree) {
    e.Variable? || e.Element? || e.FixedField? || e.Field?
  }

  /** An expression at a level, from the tokens to come. `stop` is set where a redirection may follow. */
  function Parse(level: nat, stop: bool, ts: Tokens): (r: Option<Parsed>)
    requires level <= PRIMARY
    ensures r.Some? ==> |r.value.rest| < |ts|
    decreases |ts|, 20 - level
  {
    if level == PRIMARY then Primary(ts)
    else if level == UNARY && UnaryOpOf(First(ts)).Some? then
      var operand :- Parse(UNARY, stop, ts[1..]);
      Some(Parsed(Unary(UnaryOpOf(First(ts)).value, operand.tree), operand.rest))
    else
      var inner :- Parse(level + 1, stop, ts);
      Tail(level, stop, inner.tree, inner.rest)
  }

  /** What a level does once it has an operand. */
  function Tail(level: nat, stop: bool, e: Tree, ts: Tokens): (r: Option<Parsed>)
    requires level < PRIMARY
    ensures r.Some? ==> |r.value.rest| <= |ts|
    decreases |ts|, 30
  {
    if level == ASSIGN then
      if AssignmentOpOf(First(ts)).None? then Some(Parsed(e, ts))
      else if !IsLvalue(e) then None
      else
        var value :- Parse(ASSIGN, false, ts[1..]);
        Some(Parsed(Assignment(e, AssignmentOpOf(First(ts)).value, value.tree), value.rest))
    else if level == CONDITIONAL then
      if First(ts) != Sym(QUESTION) then Some(Parsed(e, ts)) else
      var yes :- Parse(ASSIGN, false, ts[1..]);
      if First(yes.rest) != Sym(COLON) then None else
      var no :- Parse(CONDITIONAL, false, yes.rest[1..]);
      Some(Parsed(Ternary(e, yes.tree, no.tree), no.rest))
    else if Loops(level) then
      if OpOf(level, stop, First(ts)).None? then Some(Parsed(e, ts)) else
      var right :- Parse(level + 1, stop, ts[1..]);
      Tail(level, stop, Binary(OpOf(level, stop, First(ts)).value, e, right.tree), right.rest)
    else if level == MEMBERSHIP then
      if First(ts) != Sym(IN) then Some(Parsed(e, ts)) else
      var right :- Parse(CONCAT, stop, ts[1..]);
      Some(Parsed(Binary(InOp, e, right.tree), right.rest))
    else if level == CONCAT then
      if !StartsExpression(First(ts)) then Some(Parsed(e, ts)) else
      var right :- Parse(ADDITIVE, stop, ts);
      Tail(CONCAT, stop, Binary(ConcatOp, e, right.tree), right.rest)
    else if level == POWER then
      if First(ts) != Sym(CARET) then Some(Parsed(e, ts)) else
      var right :- Parse(POWER, stop, ts[1..]);
      Some(Parsed(Binary(PowOp, e, right.tree), right.rest))
    else if level == POSTFIX && PostfixOpOf(First(ts)).Some? then
      Some(Parsed(Postfix(PostfixOpOf(First(ts)).value, e), ts[1..]))
    else Some(Parsed(e, ts))
  }

  function Primary(ts: Tokens): (r: Option<Parsed>)
    ensures r.Some? ==> |r.value.rest| < |ts|
    decreases |ts|, 0
  {
    match First(ts)
    case Str(raw) => Some(Parsed(StringLit(raw), ts[1..]))
    case Num(text) => Some(Parsed(NumberLit(text), ts[1..]))
    case Regex(raw) => Some(Parsed(RegexLit(raw), ts[1..]))
    case Ident(name) =>
      // Reading input with `getline` is not part of this model.
      if name == "getline" then None
      else if First(ts[1..]) == Sym(LPAREN) then
        if First(ts[2..]) == Sym(RPAREN) then Some(Parsed(Call(name, []), ts[3..])) else
        var args :- ParseList(ts[2..]);
        if First(args.rest) != Sym(RPAREN) then None else Some(Parsed(Call(name, args.trees), args.rest[1..]))
      else if First(ts[1..]) == Sym(LBRACKET) then
        var subscripts :- ParseList(ts[2..]);
        if First(subscripts.rest) != Sym(RBRACKET) then None
        else Some(Parsed(Element(name, subscripts.trees), subscripts.rest[1..]))
      else if name == "length" then Some(Parsed(Call("length", []), ts[1..]))
      else Some(Parsed(Variable(name), ts[1..]))
    case Sym(DOLLAR) =>
      var index :- Parse(UNARY, false, ts[1..]);
      if index.tree.NumberLit? && '.' !in index.tree.text then
        var n :- IntegerOf(index.tree.text);
        Some(Parsed(FixedField(n), index.rest))
      else Some(Parsed(Field(index.tree), index.rest))
    case Sym(LPAREN) =>
      var inner :- Parse(ASSIGN, false, ts[1..]);
      if First(inner.rest) != Sym(RPAREN) then None else Some(Parsed(inner.tree, inner.rest[1..]))
    case _ => None
  }

  /** Expressions separated by commas, at least one. */
  function ParseList(ts: Tokens): (r: Option<ParsedList>)
    ensures r.Some? ==> |r.value.rest| < |ts|
    decreases |ts|, 31
  {
    var first :- Parse(ASSIGN, false, ts);
    if First(first.rest) != Sym(COMMA) then Some(ParsedList([first.tree], first.rest)) else
    var more :- ParseList(first.rest[1..]);
    Some(ParsedList([first.tree] + more.trees, more.rest))
  }

  // ----- The printer -----

  /** The level whose rule makes the tree. A field ends in an operand of its own, so nothing of the
      postfix level can follow it. */
  function LevelOf(e: Tree): nat {
    match e
    case Assignment(_, _, _) => ASSIGN
    case Ternary(_, _, _) => CONDITIONAL
    case Binary(op, _, _) => LevelOfOp(op)
    case Unary(_, _) => UNARY
    case Postfix(_, _) => POSTFIX
    case Field(_) => POSTFIX
    case FixedField(_) => POSTFIX
    case _ => PRIMARY
  }

  /** Where a redirection may follow, what takes a `>` for its own is parenthesised. */
  predicate Exposed(stop: bool, e: Tree) {
    stop && (e.Assignment? || e.Ternary? || (e.Binary? && e.bop == GreaterOp))
  }

  function Grouped(ts: Tokens): Tokens {
    [Sym(LPAREN)] + ts + [Sym(RPAREN)]
  }

  function PrintAt(level: nat, stop: bool, e: Tree): Tokens
    decreases e, 1
  {
    if LevelOf(e) < level || Exposed(stop, e) then Grouped(Print(false, e)) else Print(stop, e)
  }

  predicate EndsInName(ts: Tokens) {
    ts != [] && ts[|ts| - 1].Ident?
  }

  /** Tokens that read differently right after an operand: a sign would be an operator, and the
      slash that opens a regular expression would divide. */
  predicate Clings(t: Token) {
    t.Regex? || t in {Sym(PLUS), Sym(MINUS), Sym(PLUS_PLUS), Sym(MINUS_MINUS)}
  }

  /** The right operand of a concatenation must not begin with such a token, nor the left one end in
      a name where a parenthesis follows, which would be a call. */
  function RightPart(stop: bool, r: Tree): Tokens
    decreases r, 2
  {
    var natural := PrintAt(ADDITIVE, stop, r);
    if Clings(First(natural)) then Grouped(Print(false, r)) else natural
  }

  function LeftPart(stop: bool, l: Tree, right: Tokens): Tokens
    decreases l, 2
  {
    var natural := PrintAt(CONCAT, stop, l);
    if EndsInName(natural) && First(right) == Sym(LPAREN) then Grouped(Print(false, l)) else natural
  }

  function PostfixToken(op: PostfixOp): Token {
    if op.PostInc? then Sym(PLUS_PLUS) else Sym(MINUS_MINUS)
  }

  function UnaryToken(op: UnaryOp): Token {
    match op
    case PlusOp => Sym(PLUS)
    case MinusOp => Sym(MINUS)
    case NotOp => Sym(BANG)
    case PreInc => Sym(PLUS_PLUS)
    case PreDec => Sym(MINUS_MINUS)
  }

  function AssignmentToken(op: AssignmentOp): Token {
    match op
    case PlainSet => Sym(EQUAL)
    case AddSet => Sym(PLUS_EQUAL)
    case SubSet => Sym(MINUS_EQUAL)
    case MulSet => Sym(STAR_EQUAL)
    case DivSet => Sym(SLASH_EQUAL)
    case ModSet => Sym(PERCENT_EQUAL)
    case PowSet => Sym(CARET_EQUAL)
  }

  /** The tree without parentheses of its own. */
  function Print(stop: bool, e: Tree): Tokens
    decreases e, 0
  {
    match e
    case StringLit(raw) => [Str(raw)]
    case NumberLit(text) => [Num(text)]
    case RegexLit(raw) => [Regex(raw)]
    case Variable(name) => [Ident(name)]
    case Call(name, args) => [Ident(name), Sym(LPAREN)] + PrintList(args) + [Sym(RPAREN)]
    case Element(name, subscripts) => [Ident(name), Sym(LBRACKET)] + PrintList(subscripts) + [Sym(RBRACKET)]
    case FixedField(n) => [Sym(DOLLAR), Num(Decimal(n))]
    case Field(index) => [Sym(DOLLAR)] + PrintAt(UNARY, false, index)
    case Postfix(op, operand) => PrintAt(PRIMARY, stop, operand) + [PostfixToken(op)]
    case Unary(op, operand) => [UnaryToken(op)] + PrintAt(UNARY, stop, operand)
    case Binary(op, l, r) =>
      if op == ConcatOp then
        var right := RightPart(stop, r);
        LeftPart(stop, l, right) + right
      else if op == PowOp then PrintAt(UNARY, stop, l) + [Sym(CARET)] + PrintAt(POWER, stop, r)
      else if op == InOp then PrintAt(CONCAT, stop, l) + [Sym(IN)] + PrintAt(CONCAT, stop, r)
      else PrintAt(LevelOfOp(op), stop, l) + [Sym(SymbolOf(op))] + PrintAt(LevelOfOp(op) + 1, stop, r)
    case Ternary(c, t, f) =>
      PrintAt(OR, false, c) + [Sym(QUESTION)] + PrintAt(ASSIGN, false, t) + [Sym(COLON)]
        + PrintAt(CONDITIONAL, false, f)
    case Assignment(target, op, value) =>
      PrintAt(CONDITIONAL, false, target) + [AssignmentToken(op)] + PrintAt(ASSIGN, false, value)
  }

  function PrintList(es: seq<Tree>): Tokens
    decreases es, 0
  {
    if es == [] then [] else if |es| == 1 then PrintAt(ASSIGN, false, es[0])
    else PrintAt(ASSIGN, false, es[0]) + [Sym(COMMA)] + PrintList(es[1..])
  }

  // ----- The trees a parser can make -----

  /** No name is `getline`, none `length` but that of a call, arrays have subscripts, a field with a
      whole number is a fixed one, and what is assigned to is assignable. */
  predicate Normal(e: Tree)
    decreases e
  {
    match e
    case StringLit(_) => true
    case NumberLit(_) => true
    case RegexLit(_) => true
    case Variable(name) => name != "getline" && name != "length"
    case Call(name, args) => name != "getline" && forall a :: a in args ==> Normal(a)
    case Element(name, subscripts) => name != "getline" && subscripts != [] && forall s :: s in subscripts ==> Normal(s)
    case FixedField(_) => true
    case Field(index) => Normal(index) && !(index.NumberLit? && '.' !in index.text)
    case Postfix(_, operand) => Normal(operand)
    case Unary(_, operand) => Normal(operand)
    case Binary(_, l, r) => Normal(l) && Normal(r)
    case Ternary(c, t, f) => Normal(c) && Normal(t) && Normal(f)
    case Assignment(target, _, value) => IsLvalue(target) && Normal(target) && Normal(value)
  }
}

/** What binds tighter than what, written out: a table of strengths, and the tokens of a tree with
    parentheses just where the table asks for them. The parser reads those tokens as that tree. */
module ExpressionPrecedence {
  import opened Options
  import opened Texts
  import opened ExpressionGrammar
  import opened ExpressionRoundTrip

  // ----- The table -----

  /** The greater the number, the tighter the operator binds. */
  function Strength(e: Tree): nat {
    match e
    case Assignment(_, _, _) => 1
    case Ternary(_, _, _) => 2
    case Binary(op, _, _) => BinaryStrength(op)
    case Unary(_, _) => 12
    case Postfix(_, _) => 13
    case Field(_) => 13
    case FixedField(_) => 13
    case _ => 14
  }

  function BinaryStrength(op: BinaryOp): nat {
    match op
    case OrOp => 3
    case AndOp => 4
    case LessOp => 5
    case LessEqualOp => 5
    case GreaterOp => 5
    case GreaterEqualOp => 5
    case EqualOp => 5
    case NotEqualOp => 5
    case MatchOp => 6
    case NotMatchOp => 6
    case InOp => 7
    case ConcatOp => 8
    case AddOp => 9
    case SubOp => 9
    case MulOp => 10
    case DivOp => 10
    case ModOp => 10
    case PowOp => 11
  }

  /** The least strength of a left operand without parentheses: operators group to the left, but `in` not
      at all, and what stands left of `^` is at least a sign. */
  function LeftStrength(op: BinaryOp): nat {
    if op == InOp then 8 else if op == PowOp then 12 else BinaryStrength(op)
  }

  /** And of a right one: only `^` groups to the right. */
  function RightStrength(op: BinaryOp): nat {
    if op == PowOp then 11 else BinaryStrength(op) + 1
  }

  function OperatorTokens(op: BinaryOp): Tokens {
    match op
    case OrOp => [Sym(OR_OR)]
    case AndOp => [Sym(AND_AND)]
    case LessOp => [Sym(LESS)]
    case LessEqualOp => [Sym(LESS_EQUAL)]
    case GreaterOp => [Sym(GREATER)]
    case GreaterEqualOp => [Sym(GREATER_EQUAL)]
    case EqualOp => [Sym(EQUAL_EQUAL)]
    case NotEqualOp => [Sym(NOT_EQUAL)]
    case MatchOp => [Sym(MATCH)]
    case NotMatchOp => [Sym(NOT_MATCH)]
    case InOp => [Sym(IN)]
    case ConcatOp => []
    case AddOp => [Sym(PLUS)]
    case SubOp => [Sym(MINUS)]
    case MulOp => [Sym(STAR)]
    case DivOp => [Sym(SLASH)]
    case ModOp => [Sym(PERCENT)]
    case PowOp => [Sym(CARET)]
  }

  function SignToken(op: UnaryOp): Token {
    match op
    case PlusOp => Sym(PLUS)
    case MinusOp => Sym(MINUS)
    case NotOp => Sym(BANG)
    case PreInc => Sym(PLUS_PLUS)
    case PreDec => Sym(MINUS_MINUS)
  }

  function StoreToken(op: AssignmentOp): Token {
    match op
    case PlainSet => Sym(EQUAL)
    case AddSet => Sym(PLUS_EQUAL)
    case SubSet => Sym(MINUS_EQUAL)
    case MulSet => Sym(STAR_EQUAL)
    case DivSet => Sym(SLASH_EQUAL)
    case ModSet => Sym(PERCENT_EQUAL)
    case PowSet => Sym(CARET_EQUAL)
  }

  function Numeral(n: nat): string {
    if n < 10 then ["0123456789"[n]] else Numeral(n / 10) + ["0123456789"[n % 10]]
  }

  // ----- The tokens of a tree -----

  function Parenthesised(ts: Tokens): Tokens {
    [Sym(LPAREN)] + ts + [Sym(RPAREN)]
  }

  /** A sign or a regular expression at the front would be taken for an operator. */
  predicate Sticks(ts: Tokens) {
    ts != [] && (ts[0].Regex? || ts[0] in {Sym(PLUS), Sym(MINUS), Sym(PLUS_PLUS), Sym(MINUS_MINUS)})
  }

  /** A name in front of a parenthesis would be taken for a call. */
  predicate Calls(l: Tokens, r: Tokens) {
    l != [] && l[|l| - 1].Ident? && r != [] && r[0] == Sym(LPAREN)
  }

  /** The tokens of a tree where something of strength `least` at least must stand. */
  function Spelled(least: nat, e: Tree): Tokens
    decreases e, 1
  {
    if Strength(e) < least then Parenthesised(Bare(e)) else Bare(e)
  }

  function Bare(e: Tree): Tokens
    decreases e, 0
  {
    match e
    case StringLit(raw) => [Str(raw)]
    case NumberLit(text) => [Num(text)]
    case RegexLit(raw) => [Regex(raw)]
    case Variable(name) => [Ident(name)]
    case Call(name, args) => [Ident(name), Sym(LPAREN)] + Listed(args) + [Sym(RPAREN)]
    case Element(name, subscripts) => [Ident(name), Sym(LBRACKET)] + Listed(subscripts) + [Sym(RBRACKET)]
    case FixedField(n) => [Sym(DOLLAR), Num(Numeral(n))]
    case Field(index) => [Sym(DOLLAR)] + Spelled(12, index)
    case Postfix(op, operand) => Spelled(14, operand) + [if op.PostInc? then Sym(PLUS_PLUS) else Sym(MINUS_MINUS)]
    case Unary(op, operand) => [SignToken(op)] + Spelled(12, operand)
    case Binary(op, l, r) =>
      // Adjacent operands are kept apart where they would run into each other.
      if op == ConcatOp then
        var right := if Sticks(Spelled(9, r)) then Parenthesised(Bare(r)) else Spelled(9, r);
        (if Calls(Spelled(8, l), right) then Parenthesised(Bare(l)) else Spelled(8, l)) + right
      else Spelled(LeftStrength(op), l) + OperatorTokens(op) + Spelled(RightStrength(op), r)
    case Ternary(c, t, f) => Spelled(3, c) + [Sym(QUESTION)] + Spelled(1, t) + [Sym(COLON)] + Spelled(2, f)
    case Assignment(target, op, value) => Spelled(2, target) + [StoreToken(op)] + Spelled(1, value)
  }

  function Listed(es: seq<Tree>): Tokens
    decreases es, 0
  {
    if es == [] then [] else if |es| == 1 then Spelled(1, es[0])
    else Spelled(1, es[0]) + [Sym(COMMA)] + Listed(es[1..])
  }

  // ----- The parser follows the table -----

  lemma StrengthIsLevel(e: Tree)
    ensures Strength(e) == LevelOf(e) + 1
  {
  }

  lemma {:induction false} NumeralIsDecimal(n: nat)
    ensures Numeral(n) == Decimal(n)
  {
    if n >= 10 { NumeralIsDecimal(n / 10); }
  }

  lemma {:induction false} SpelledIsPrinted(least: nat, e: Tree)
    requires least > 0
    ensures Spelled(least, e) == PrintAt(least - 1, false, e)
    decreases e, 2
  {
    hide Print, Bare, LevelOf, Strength;
    StrengthIsLevel(e);
    BareIsPrinted(e);
  }

  lemma {:induction false} BareIsPrinted(e: Tree)
    ensures Bare(e) == Print(false, e)
    decreases e, 1
  {
    hide Spelled, PrintAt, Decimal, Numeral;
    match e
    case StringLit(_) =>
    case NumberLit(_) =>
    case RegexLit(_) =>
    case Variable(_) =>
    case Call(_, args) => ListedIsPrinted(args);
    case Element(_, subscripts) => ListedIsPrinted(subscripts);
    case FixedField(n) => NumeralIsDecimal(n);
    case Field(index) => SpelledIsPrinted(12, index);
    case Postfix(_, operand) => SpelledIsPrinted(14, operand);
    case Unary(_, operand) => SpelledIsPrinted(12, operand);
    case Binary(op, l, r) =>
      if op == ConcatOp {
        ConcatIsPrinted(e);
      } else {
        SpelledIsPrinted(LeftStrength(op), l);
        SpelledIsPrinted(RightStrength(op), r);
      }
    case Ternary(c, t, f) =>
      SpelledIsPrinted(3, c);
      SpelledIsPrinted(1, t);
      SpelledIsPrinted(2, f);
    case Assignment(target, _, value) =>
      SpelledIsPrinted(2, target);
      SpelledIsPrinted(1, value);
  }

  lemma {:induction false} ConcatIsPrinted(e: Tree)
    requires e.Binary? && e.bop == ConcatOp
    ensures Bare(e) == Print(false, e)
    decreases e, 0
  {
    hide Spelled, PrintAt;
    SpelledIsPrinted(8, e.left);
    SpelledIsPrinted(9, e.right);
    BareIsPrinted(e.left);
    BareIsPrinted(e.right);
  }

  lemma {:induction false} ListedIsPrinted(es: seq<Tree>)
    ensures Listed(es) == PrintList(es)
    decreases es, 0
  {
    hide Spelled, PrintAt;
    if es != [] {
      SpelledIsPrinted(1, es[0]);
      if |es| > 1 { ListedIsPrinted(es[1..]); }
    }
  }

  /** The parser reads the tokens of a tree, with parentheses where the table asks for them and nowhere
      else, as that tree. */
  lemma SpelledReads(e: Tree)
    requires Normal(e)
    ensures Parse(0, false, Spelled(1, e) + [EOF]) == Some(Parsed(e, [EOF]))
  {
    hide Parse, PrintAt, Spelled, Normal, Clear, Joint;
    SpelledIsPrinted(1, e);
    EndIsClear(Spelled(1, e));
    PrintedReads(0, false, e, [EOF]);
  }

  lemma EndIsClear(ts: Tokens)
    ensures Clear(0, false, First([EOF])) && Joint(ts, [EOF])
  {
  }

  // ----- Two operators -----

  /** The operator written as one symbol, and how tightly it binds. */
  function OperatorOf(s: Symbol): Option<(BinaryOp, nat)> {
    match s
    case OR_OR => Some((OrOp, 1))
    case AND_AND => Some((AndOp, 2))
    case LESS => Some((LessOp, 3))
    case LESS_EQUAL => Some((LessEqualOp, 3))
    case GREATER => Some((GreaterOp, 3))
    case GREATER_EQUAL => Some((GreaterEqualOp, 3))
    case EQUAL_EQUAL => Some((EqualOp, 3))
    case NOT_EQUAL => Some((NotEqualOp, 3))
    case MATCH => Some((MatchOp, 4))
    case NOT_MATCH => Some((NotMatchOp, 4))
    case IN => Some((InOp, 5))
    // Adjacent operands bind here, tighter than all of the above.
    case PLUS => Some((AddOp, 7))
    case MINUS => Some((SubOp, 7))
    case STAR => Some((MulOp, 8))
    case SLASH => Some((DivOp, 8))
    case PERCENT => Some((ModOp, 8))
    case CARET => Some((PowOp, 9))
    case _ => None
  }

  /** A name that stands for a variable. */
  predicate Plain(name: string) {
    name != "getline" && name != "length"
  }

  lemma OperatorIs(s: Symbol)
    requires OperatorOf(s).Some?
    ensures
      var (op, strength) := OperatorOf(s).value;
      && op != ConcatOp && OperatorTokens(op) == [Sym(s)] && (op == PowOp <==> s == CARET) && (op == InOp <==> s == IN)
      && BinaryStrength(op) == strength + 2 && 1 <= strength <= 9 && (s == CARET <==> strength == 9)
        && (s == IN <==> strength == 5)
  {
  }

  lemma NameIs(least: nat, name: string)
    requires least <= 14
    ensures Spelled(least, Variable(name)) == [Ident(name)]
  {
  }

  /** Of two operators the tighter takes its operands first; of two that bind alike the left one does, but
      of two powers the right one. A second `in` is not read at all. */
  lemma TwoOperators(s: Symbol, t: Symbol, a: string, b: string, c: string)
    requires OperatorOf(s).Some? && OperatorOf(t).Some? && Plain(a) && Plain(b) && Plain(c)
    ensures
      var (first, strength), (second, other) := OperatorOf(s).value, OperatorOf(t).value;
      var x, y, z := Variable(a), Variable(b), Variable(c);
      Parse(0, false, [Ident(a), Sym(s), Ident(b), Sym(t), Ident(c), EOF]) ==
        if s == IN && t == IN then Some(Parsed(Binary(InOp, x, y), [Sym(IN), Ident(c), EOF]))
        else if strength > other || (strength == other && s != CARET)
        then Some(Parsed(Binary(second, Binary(first, x, y), z), [EOF]))
        else Some(Parsed(Binary(first, x, Binary(second, y, z)), [EOF]))
  {
    hide Parse, Spelled, Normal, OperatorTokens, BinaryStrength, OperatorOf, PrintAt, Print;
    OperatorIs(s);
    OperatorIs(t);
    var first, second := OperatorOf(s).value.0, OperatorOf(t).value.0;
    if s == IN && t == IN {
      OneIn(a, b, c);
    } else if OperatorOf(s).value.1 > OperatorOf(t).value.1
      || (OperatorOf(s).value.1 == OperatorOf(t).value.1 && s != CARET) {
      LeftFirst(first, second, a, b, c);
      assert [Ident(a)] + [Sym(s)] + [Ident(b)] + [Sym(t)] + [Ident(c)] + [EOF]
        == [Ident(a), Sym(s), Ident(b), Sym(t), Ident(c), EOF];
    } else {
      RightFirst(first, second, a, b, c);
      assert [Ident(a)] + [Sym(s)] + ([Ident(b)] + [Sym(t)] + [Ident(c)]) + [EOF]
        == [Ident(a), Sym(s), Ident(b), Sym(t), Ident(c), EOF];
    }
  }

  lemma LeftFirst(s: BinaryOp, t: BinaryOp, a: string, b: string, c: string)
    requires s != ConcatOp && t != ConcatOp && Plain(a) && Plain(b) && Plain(c) && BinaryStrength(s) >= LeftStrength(t)
    ensures Parse(0, false, [Ident(a)] + OperatorTokens(s) + [Ident(b)] + OperatorTokens(t) + [Ident(c)] + [EOF])
      == Some(Parsed(Binary(t, Binary(s, Variable(a), Variable(b)), Variable(c)), [EOF]))
  {
    hide Parse, OperatorTokens;
    var inner := Binary(s, Variable(a), Variable(b));
    var e := Binary(t, inner, Variable(c));
    NamesAre(a, b, c, s, t);
    hide BinaryStrength;
    assert Normal(Variable(a)) && Normal(Variable(b)) && Normal(Variable(c)) && Normal(inner);
    assert Bare(inner) == [Ident(a)] + OperatorTokens(s) + [Ident(b)];
    assert Bare(e) == Bare(inner) + OperatorTokens(t) + [Ident(c)];
    SpelledReads(e);
  }

  lemma RightFirst(s: BinaryOp, t: BinaryOp, a: string, b: string, c: string)
    requires s != ConcatOp && t != ConcatOp && Plain(a) && Plain(b) && Plain(c) && BinaryStrength(t) >= RightStrength(s)
    ensures Parse(0, false, [Ident(a)] + OperatorTokens(s) + ([Ident(b)] + OperatorTokens(t) + [Ident(c)]) + [EOF])
      == Some(Parsed(Binary(s, Variable(a), Binary(t, Variable(b), Variable(c))), [EOF]))
  {
    hide Parse, OperatorTokens;
    var inner := Binary(t, Variable(b), Variable(c));
    var e := Binary(s, Variable(a), inner);
    NamesAre(a, b, c, s, t);
    hide BinaryStrength;
    assert Normal(Variable(a)) && Normal(Variable(b)) && Normal(Variable(c)) && Normal(inner);
    assert Bare(inner) == [Ident(b)] + OperatorTokens(t) + [Ident(c)];
    assert Bare(e) == [Ident(a)] + OperatorTokens(s) + Bare(inner);
    SpelledReads(e);
  }

  lemma NamesAre(a: string, b: string, c: string, s: BinaryOp, t: BinaryOp)
    ensures forall op :: 0 < LeftStrength(op) <= 14 && 0 < RightStrength(op) <= 14 && 0 < BinaryStrength(op)
    ensures forall least: nat, name :: least <= 14 ==> Spelled(least, Variable(name)) == [Ident(name)]
  {
    forall least: nat, name | least <= 14
      ensures Spelled(least, Variable(name)) == [Ident(name)]
    {
      NameIs(least, name);
    }
  }

  lemma OneIn(a: string, b: string, c: string)
    requires Plain(a) && Plain(b)
    ensures Parse(0, false, [Ident(a), Sym(IN), Ident(b), Sym(IN), Ident(c), EOF])
      == Some(Parsed(Binary(InOp, Variable(a), Variable(b)), [Sym(IN), Ident(c), EOF]))
  {
    hide Parse, Tail, PrintAt, Clear, Joint, Normal;
    var x, y, rest := Variable(a), Variable(b), [Sym(IN), Ident(c), EOF];
    var after := [Sym(IN)] + ([Ident(b)] + rest);
    NamePrinted(a);
    NamePrinted(b);
    InIsClear(rest);
    InIsClear(after);
    PrintedReads(CONCAT, false, x, after);
    PrintedReads(CONCAT, false, y, rest);
    assert after[1..] == [Ident(b)] + rest;
    Onward(MEMBERSHIP, false, [Ident(a)] + after, x, after);
    InTail(false, x, after, y, rest);
    assert [Ident(a)] + after == [Ident(a), Sym(IN), Ident(b), Sym(IN), Ident(c), EOF];
    OutFromIn(MEMBERSHIP, [Ident(a)] + after, Binary(InOp, x, y), rest);
  }

  lemma NamePrinted(name: string)
    ensures PrintAt(CONCAT, false, Variable(name)) == [Ident(name)] && (Plain(name) ==> Normal(Variable(name)))
  {
  }

  lemma InIsClear(rest: Tokens)
    requires First(rest) == Sym(IN)
    ensures Clear(CONCAT, false, First(rest)) && forall ts :: Joint(ts, rest)
  {
  }

  /** No rule further out takes an `in`. */
  lemma {:induction false} OutFromIn(level: nat, ts: Tokens, e: Tree, rest: Tokens)
    requires level <= MEMBERSHIP && Reads(level, false, ts, e, rest) && First(rest) == Sym(IN)
    ensures Reads(0, false, ts, e, rest)
    decreases level
  {
    hide Parse, Tail;
    if level > 0 {
      Onward(level - 1, false, ts, e, rest);
      InStops(level - 1, e, rest);
      OutFromIn(level - 1, ts, e, rest);
    }
  }

  lemma InStops(level: nat, e: Tree, rest: Tokens)
    requires level < MEMBERSHIP && First(rest) == Sym(IN)
    ensures Tail(level, false, e, rest) == Some(Parsed(e, rest))
  {
    hide Parse;
  }

  // ----- Operators of other kinds -----

  ghost predicate Parses(ts: Tokens, e: Tree) {
    Parse(0, false, ts) == Some(Parsed(e, [EOF]))
  }

  lemma ParsesBare(ts: Tokens, e: Tree)
    requires Normal(e) && ts == Bare(e) + [EOF]
    ensures Parses(ts, e)
  {
    hide Parse, Bare, Normal;
    SpelledReads(e);
  }

  /** Names need no parentheses, and a sign, a `$`, an increment and an operator none where the table says so. */
  lemma NoParentheses(op: BinaryOp, a: string, b: string)
    requires op != ConcatOp && Plain(a) && Plain(b)
    ensures
      var x, y := Variable(a), Variable(b);
      var e := Binary(op, x, y);
      && Normal(x) && Normal(y) && Normal(e) && Bare(e) == [Ident(a)] + OperatorTokens(op) + [Ident(b)]
      && (forall least :: 0 <= least <= BinaryStrength(op) ==> Spelled(least, e) == Bare(e))
      && (forall least :: 0 <= least <= 14 ==> Spelled(least, x) == [Ident(a)] && Spelled(least, y) == [Ident(b)])
  {
    NamesAre(a, b, a, op, op);
    hide OperatorTokens, BinaryStrength;
    assert Normal(Variable(a)) && Normal(Variable(b));
    assert Bare(Binary(op, Variable(a), Variable(b))) == [Ident(a)] + OperatorTokens(op) + [Ident(b)];
  }

  /** Adjacent operands bind tighter than `in` and all that is looser, and group to the left. */
  lemma AdjacentOperands(s: Symbol, a: string, b: string, c: string)
    requires OperatorOf(s).Some? && Plain(a) && Plain(b) && Plain(c)
    ensures
      var (op, strength) := OperatorOf(s).value;
      var x, y, z := Variable(a), Variable(b), Variable(c);
      && Parses([Ident(a), Ident(b), Sym(s), Ident(c), EOF],
                if strength > 6 then Binary(ConcatOp, x, Binary(op, y, z)) else Binary(op, Binary(ConcatOp, x, y), z))
      && Parses([Ident(a), Sym(s), Ident(b), Ident(c), EOF],
                if strength > 6 then Binary(ConcatOp, Binary(op, x, y), z) else Binary(op, x, Binary(ConcatOp, y, z)))
      && Parses([Ident(a), Ident(b), Ident(c), EOF], Binary(ConcatOp, Binary(ConcatOp, x, y), z))
  {
    hide Parses, OperatorTokens, OperatorOf, Normal;
    OperatorIs(s);
    var op := OperatorOf(s).value.0;
    var x, y, z := Variable(a), Variable(b), Variable(c);
    NoParentheses(op, a, b);
    NoParentheses(op, b, c);
    BesideNames(a, b);
    BesideNames(b, c);
    if OperatorOf(s).value.1 > 6 {
      TightBeside(op, a, b, c);
    } else {
      LooseBeside(op, a, b, c);
    }
    ThreeBeside(a, b, c);
  }

  lemma BesideNames(a: string, b: string)
    requires Plain(a) && Plain(b)
    ensures
      var e := Binary(ConcatOp, Variable(a), Variable(b));
      Normal(e) && Bare(e) == [Ident(a), Ident(b)] && forall least :: 0 <= least <= 8 ==> Spelled(least, e) == Bare(e)
  {
    NoParentheses(OrOp, a, b);
    assert Bare(Binary(ConcatOp, Variable(a), Variable(b))) == [Ident(a)] + [Ident(b)];
  }

  lemma NormalPair(op: BinaryOp, l: Tree, r: Tree)
    requires Normal(l) && Normal(r)
    ensures Normal(Binary(op, l, r))
  {
  }

  lemma ThreeBeside(a: string, b: string, c: string)
    requires Plain(a) && Plain(b) && Plain(c)
    ensures Parses([Ident(a), Ident(b), Ident(c), EOF],
                   Binary(ConcatOp, Binary(ConcatOp, Variable(a), Variable(b)), Variable(c)))
  {
    hide Parses, Normal;
    var inner, z := Binary(ConcatOp, Variable(a), Variable(b)), Variable(c);
    BesideNames(a, b);
    NoParentheses(OrOp, b, c);
    NormalPair(ConcatOp, inner, z);
    assert Bare(Binary(ConcatOp, inner, z)) == [Ident(a), Ident(b)] + [Ident(c)];
    ParsesBare([Ident(a), Ident(b), Ident(c), EOF], Binary(ConcatOp, inner, z));
  }

  lemma TightBeside(op: BinaryOp, a: string, b: string, c: string)
    requires op != ConcatOp && BinaryStrength(op) >= 9 && |OperatorTokens(op)| == 1 && Plain(a) && Plain(b) && Plain(c)
    ensures
      var t, x, y, z := OperatorTokens(op)[0], Variable(a), Variable(b), Variable(c);
      && Parses([Ident(a), Ident(b), t, Ident(c), EOF], Binary(ConcatOp, x, Binary(op, y, z)))
      && Parses([Ident(a), t, Ident(b), Ident(c), EOF], Binary(ConcatOp, Binary(op, x, y), z))
  {
    hide Parses, Normal, OperatorTokens, BinaryStrength;
    var t, x, y, z := OperatorTokens(op)[0], Variable(a), Variable(b), Variable(c);
    NoParentheses(op, a, b);
    NoParentheses(op, b, c);
    NormalPair(ConcatOp, x, Binary(op, y, z));
    NormalPair(ConcatOp, Binary(op, x, y), z);
    assert [Ident(b)] + OperatorTokens(op) + [Ident(c)] == [Ident(b), t, Ident(c)];
    assert [Ident(a)] + OperatorTokens(op) + [Ident(b)] == [Ident(a), t, Ident(b)];
    assert Bare(Binary(ConcatOp, x, Binary(op, y, z))) == [Ident(a)] + [Ident(b), t, Ident(c)];
    assert Bare(Binary(ConcatOp, Binary(op, x, y), z)) == [Ident(a), t, Ident(b)] + [Ident(c)];
    ParsesBare([Ident(a), Ident(b), t, Ident(c), EOF], Binary(ConcatOp, x, Binary(op, y, z)));
    ParsesBare([Ident(a), t, Ident(b), Ident(c), EOF], Binary(ConcatOp, Binary(op, x, y), z));
  }

  lemma LooseBeside(op: BinaryOp, a: string, b: string, c: string)
    requires op != ConcatOp && BinaryStrength(op) <= 7 && |OperatorTokens(op)| == 1 && Plain(a) && Plain(b) && Plain(c)
    ensures
      var t, x, y, z := OperatorTokens(op)[0], Variable(a), Variable(b), Variable(c);
      && Parses([Ident(a), Ident(b), t, Ident(c), EOF], Binary(op, Binary(ConcatOp, x, y), z))
      && Parses([Ident(a), t, Ident(b), Ident(c), EOF], Binary(op, x, Binary(ConcatOp, y, z)))
  {
    hide Parses, Normal, OperatorTokens, Bare, Spelled;
    var t, x, y, z := OperatorTokens(op)[0], Variable(a), Variable(b), Variable(c);
    assert LeftStrength(op) <= 8 && RightStrength(op) <= 8;
    hide BinaryStrength, LeftStrength, RightStrength;
    BesideNames(a, b);
    BesideNames(b, c);
    NoParentheses(OrOp, a, b);
    NoParentheses(OrOp, b, c);
    NormalPair(op, Binary(ConcatOp, x, y), z);
    NormalPair(op, x, Binary(ConcatOp, y, z));
    BareOf(op, Binary(ConcatOp, x, y), z);
    BareOf(op, x, Binary(ConcatOp, y, z));
    assert [Ident(a), Ident(b)] + OperatorTokens(op) + [Ident(c)] + [EOF] == [Ident(a), Ident(b), t, Ident(c), EOF];
    assert [Ident(a)] + OperatorTokens(op) + [Ident(b), Ident(c)] + [EOF] == [Ident(a), t, Ident(b), Ident(c), EOF];
    ParsesBare([Ident(a), Ident(b), t, Ident(c), EOF], Binary(op, Binary(ConcatOp, x, y), z));
    ParsesBare([Ident(a), t, Ident(b), Ident(c), EOF], Binary(op, x, Binary(ConcatOp, y, z)));
  }

  lemma BareOf(op: BinaryOp, l: Tree, r: Tree)
    requires op != ConcatOp
    ensures Bare(Binary(op, l, r)) == Spelled(LeftStrength(op), l) + OperatorTokens(op) + Spelled(RightStrength(op), r)
  {
    hide Spelled, OperatorTokens, LeftStrength, RightStrength;
  }

  /** A sign, a `$` and an increment bind tighter than any operator, `^` included. */
  lemma SignedOperands(s: Symbol, a: string, b: string)
    requires OperatorOf(s).Some? && Plain(a) && Plain(b)
    ensures
      var op := OperatorOf(s).value.0;
      var x, y := Variable(a), Variable(b);
      && Parses([Sym(MINUS), Ident(a), Sym(s), Ident(b), EOF], Binary(op, Unary(MinusOp, x), y))
      && Parses([Sym(PLUS), Ident(a), Sym(s), Ident(b), EOF], Binary(op, Unary(PlusOp, x), y))
      && Parses([Sym(BANG), Ident(a), Sym(s), Ident(b), EOF], Binary(op, Unary(NotOp, x), y))
      && Parses([Sym(PLUS_PLUS), Ident(a), Sym(s), Ident(b), EOF], Binary(op, Unary(PreInc, x), y))
      && Parses([Sym(MINUS_MINUS), Ident(a), Sym(s), Ident(b), EOF], Binary(op, Unary(PreDec, x), y))
      && Parses([Sym(DOLLAR), Ident(a), Sym(s), Ident(b), EOF], Binary(op, Field(x), y))
      && Parses([Ident(a), Sym(PLUS_PLUS), Sym(s), Ident(b), EOF], Binary(op, Postfix(PostInc, x), y))
      && Parses([Ident(a), Sym(MINUS_MINUS), Sym(s), Ident(b), EOF], Binary(op, Postfix(PostDec, x), y))
      && Parses([Ident(a), Sym(s), Sym(MINUS), Ident(b), EOF], Binary(op, x, Unary(MinusOp, y)))
  {
    hide Parses, OperatorTokens, OperatorOf, Normal, Bare;
    OperatorIs(s);
    var op, x, y := OperatorOf(s).value.0, Variable(a), Variable(b);
    SignedName(a);
    SignedName(b);
    TightLeft(op, s, Unary(MinusOp, x), Sym(MINUS), Ident(a), b);
    TightLeft(op, s, Unary(PlusOp, x), Sym(PLUS), Ident(a), b);
    TightLeft(op, s, Unary(NotOp, x), Sym(BANG), Ident(a), b);
    TightLeft(op, s, Unary(PreInc, x), Sym(PLUS_PLUS), Ident(a), b);
    TightLeft(op, s, Unary(PreDec, x), Sym(MINUS_MINUS), Ident(a), b);
    TightLeft(op, s, Field(x), Sym(DOLLAR), Ident(a), b);
    TightLeft(op, s, Postfix(PostInc, x), Ident(a), Sym(PLUS_PLUS), b);
    TightLeft(op, s, Postfix(PostDec, x), Ident(a), Sym(MINUS_MINUS), b);
    TightRight(op, s, a, b);
  }

  lemma SignedName(a: string)
    requires Plain(a)
    ensures forall op :: Bare(Unary(op, Variable(a))) == [SignToken(op), Ident(a)] && Normal(Unary(op, Variable(a)))
    ensures Bare(Field(Variable(a))) == [Sym(DOLLAR), Ident(a)] && Normal(Field(Variable(a)))
    ensures Bare(Postfix(PostInc, Variable(a))) == [Ident(a), Sym(PLUS_PLUS)] && Normal(Postfix(PostInc, Variable(a)))
    ensures Bare(Postfix(PostDec, Variable(a))) == [Ident(a), Sym(MINUS_MINUS)] && Normal(Postfix(PostDec, Variable(a)))
  {
    hide SignToken, Strength;
    NamesAre(a, a, a, OrOp, OrOp);
    var x := Variable(a);
    assert Normal(x);
    forall op
      ensures Bare(Unary(op, x)) == [SignToken(op), Ident(a)] && Normal(Unary(op, x))
    {
      assert Bare(Unary(op, x)) == [SignToken(op)] + Spelled(12, x);
    }
    assert Bare(Field(x)) == [Sym(DOLLAR)] + Spelled(12, x);
    assert Bare(Postfix(PostInc, x)) == Spelled(14, x) + [Sym(PLUS_PLUS)];
    assert Bare(Postfix(PostDec, x)) == Spelled(14, x) + [Sym(MINUS_MINUS)];
  }

  lemma TightLeft(op: BinaryOp, s: Symbol, l: Tree, t: Token, u: Token, b: string)
    requires op != ConcatOp && OperatorTokens(op) == [Sym(s)] && Plain(b)
    requires Normal(l) && Strength(l) >= 12 && Bare(l) == [t, u]
    ensures Parses([t, u, Sym(s), Ident(b), EOF], Binary(op, l, Variable(b)))
  {
    hide Parses, OperatorTokens, Normal, Strength;
    NoParentheses(op, b, b);
    NormalPair(op, l, Variable(b));
    assert LeftStrength(op) <= 12 && RightStrength(op) <= 14;
    hide BinaryStrength, LeftStrength, RightStrength;
    assert Spelled(LeftStrength(op), l) == [t, u];
    assert Bare(Binary(op, l, Variable(b))) == [t, u] + [Sym(s)] + [Ident(b)];
    ParsesBare([t, u, Sym(s), Ident(b), EOF], Binary(op, l, Variable(b)));
  }

  lemma TightRight(op: BinaryOp, s: Symbol, a: string, b: string)
    requires op != ConcatOp && OperatorTokens(op) == [Sym(s)] && Plain(a) && Plain(b)
    ensures Parses([Ident(a), Sym(s), Sym(MINUS), Ident(b), EOF], Binary(op, Variable(a), Unary(MinusOp, Variable(b))))
  {
    hide Parses, OperatorTokens, Normal;
    var r := Unary(MinusOp, Variable(b));
    NoParentheses(op, a, b);
    SignedName(b);
    NormalPair(op, Variable(a), r);
    assert LeftStrength(op) <= 12 && RightStrength(op) <= 12;
    hide BinaryStrength, LeftStrength, RightStrength;
    assert Spelled(RightStrength(op), r) == [Sym(MINUS), Ident(b)];
    assert Bare(Binary(op, Variable(a), r)) == [Ident(a)] + [Sym(s)] + [Sym(MINUS), Ident(b)];
    ParsesBare([Ident(a), Sym(s), Sym(MINUS), Ident(b), EOF], Binary(op, Variable(a), r));
  }

  /** An increment behind an operand is followed by one in front of the next, and a regular expression is an
      operand like any other. */
  lemma AdjacentIncrements(s: Symbol, t: Symbol, a: string, b: string, raw: string)
    requires s in {PLUS_PLUS, MINUS_MINUS} && t in {PLUS_PLUS, MINUS_MINUS} && Plain(a) && Plain(b)
    ensures
      var x, y := Variable(a), Variable(b);
      && Parses([Ident(a), Sym(s), Sym(t), Ident(b), EOF],
                Binary(ConcatOp, Postfix(if s == PLUS_PLUS then PostInc else PostDec, x),
                       Unary(if t == PLUS_PLUS then PreInc else PreDec, y)))
      && Parses([Ident(a), Regex(raw), EOF], Binary(ConcatOp, x, RegexLit(raw)))
      && Parses([Regex(raw), Ident(a), EOF], Binary(ConcatOp, RegexLit(raw), x))
  {
    hide Parse, Normal, Parses, Reads, Bare, Strength, StartsExpression;
    var x, y, r := Variable(a), Variable(b), RegexLit(raw);
    var behind, front := Postfix(if s == PLUS_PLUS then PostInc else PostDec, x),
        Unary(if t == PLUS_PLUS then PreInc else PreDec, y);
    assert [Ident(a), Sym(s), Sym(t)] + [Ident(b), EOF] == [Ident(a), Sym(s), Sym(t), Ident(b), EOF];
    assert [Sym(t)] + [Ident(b), EOF] == [Sym(t), Ident(b)] + [EOF];
    assert [Regex(raw), EOF] == [Regex(raw)] + [EOF] && [Ident(a), EOF] == [Ident(a)] + [EOF];
    FrontOperand(t, b);
    PlainOperands(a, raw);
    BehindReads(s, t, a, [Ident(b), EOF]);
    OperandReads(front, [Sym(t), Ident(b)]);
    Beside(behind, [Ident(a), Sym(s), Sym(t), Ident(b), EOF], [Sym(t), Ident(b)], front);
    OperandReads(x, [Ident(a)]);
    OperandReads(r, [Regex(raw)]);
    BeforeOperand(x, Ident(a), Regex(raw));
    BeforeOperand(r, Regex(raw), Ident(a));
    Beside(x, [Ident(a), Regex(raw), EOF], [Regex(raw)], r);
    Beside(r, [Regex(raw), Ident(a), EOF], [Ident(a)], x);
  }

  lemma FrontOperand(t: Symbol, b: string)
    requires t in {PLUS_PLUS, MINUS_MINUS} && Plain(b)
    ensures
      var front := Unary(if t == PLUS_PLUS then PreInc else PreDec, Variable(b));
      Normal(front) && Strength(front) >= 9 && Bare(front) == [Sym(t), Ident(b)] && StartsExpression(Sym(t))
  {
    hide Bare;
    SignedName(b);
  }

  lemma PlainOperands(a: string, raw: string)
    requires Plain(a)
    ensures Normal(Variable(a)) && Strength(Variable(a)) >= 9 && Bare(Variable(a)) == [Ident(a)]
    ensures Normal(RegexLit(raw)) && Strength(RegexLit(raw)) >= 9 && Bare(RegexLit(raw)) == [Regex(raw)]
    ensures StartsExpression(Ident(a)) && StartsExpression(Regex(raw))
  {
  }

  lemma OperandReads(e: Tree, ts: Tokens)
    requires Normal(e) && Strength(e) >= 9 && Bare(e) == ts
    ensures Reads(ADDITIVE, false, ts + [EOF], e, [EOF])
  {
    hide Parse, PrintAt, Normal, Strength, Bare;
    SpelledIsPrinted(9, e);
    assert Clear(ADDITIVE, false, EOF) && Joint(ts, [EOF]);
    PrintedReads(ADDITIVE, false, e, [EOF]);
  }

  lemma BeforeOperand(e: Tree, t: Token, u: Token)
    requires Normal(e) && Strength(e) >= 9 && Bare(e) == [t] && (u.Regex? || u.Ident?)
    ensures Reads(ADDITIVE, false, [t, u, EOF], e, [u, EOF])
  {
    hide Parse, PrintAt, Normal, Strength, Bare;
    SpelledIsPrinted(9, e);
    assert Clear(ADDITIVE, false, u) && Joint([t], [u, EOF]);
    PrintedReads(ADDITIVE, false, e, [u, EOF]);
    assert [t] + [u, EOF] == [t, u, EOF];
  }

  /** Two operands beside each other. */
  lemma Beside(l: Tree, ts: Tokens, right: Tokens, r: Tree)
    requires Reads(ADDITIVE, false, ts, l, right + [EOF]) && Reads(ADDITIVE, false, right + [EOF], r, [EOF])
    requires right != [] && StartsExpression(right[0])
    ensures Parses(ts, Binary(ConcatOp, l, r))
  {
    hide Parse, StartsExpression, Tail;
    Onward(CONCAT, false, ts, l, right + [EOF]);
    ConcatTail(false, l, right + [EOF], r, [EOF]);
    NothingFollows();
    TailStops(CONCAT, false, Binary(ConcatOp, l, r), [EOF]);
    Rise(CONCAT, 0, false, ts, Binary(ConcatOp, l, r), [EOF]);
  }

  lemma NothingFollows()
    ensures Clear(0, false, EOF) && Clear(CONCAT, false, EOF)
  {
  }

  lemma BehindReads(s: Symbol, t: Symbol, a: string, rest: Tokens)
    requires s in {PLUS_PLUS, MINUS_MINUS} && t in {PLUS_PLUS, MINUS_MINUS} && Plain(a)
    ensures Reads(ADDITIVE, false, [Ident(a), Sym(s), Sym(t)] + rest,
                  Postfix(if s == PLUS_PLUS then PostInc else PostDec, Variable(a)), [Sym(t)] + rest)
  {
    var ts, e := [Ident(a), Sym(s), Sym(t)] + rest, Postfix(if s == PLUS_PLUS then PostInc else PostDec, Variable(a));
    var after := [Sym(s), Sym(t)] + rest;
    assert ts[1..] == after && after[1..] == [Sym(t)] + rest;
    assert Primary(ts) == Some(Parsed(Variable(a), after));
    assert Reads(PRIMARY, false, ts, Variable(a), after);
    hide Parse, Primary;
    Onward(POSTFIX, false, ts, Variable(a), after);
    assert Reads(POSTFIX, false, ts, e, after[1..]);
    hide Tail;
    NotYet(UNARY, ts, e, after[1..]);
    NotYet(POWER, ts, e, after[1..]);
    NotYet(MULTIPLICATIVE, ts, e, after[1..]);
    NotYet(ADDITIVE, ts, e, after[1..]);
  }

  /** No rule between increments and concatenation takes an increment. */
  lemma NotYet(level: nat, ts: Tokens, e: Tree, rest: Tokens)
    requires ADDITIVE <= level <= UNARY && Reads(level + 1, false, ts, e, rest)
    requires First(ts).Ident? && First(rest) in {Sym(PLUS_PLUS), Sym(MINUS_MINUS)}
    ensures Reads(level, false, ts, e, rest)
  {
    hide Primary;
    assert Tail(level, false, e, rest) == Some(Parsed(e, rest));
  }

  /** The ternary binds looser than any operator, and groups to the right. */
  lemma Ternaries(s: Symbol, a: string, b: string, c: string, d: string, e: string)
    requires OperatorOf(s).Some? && Plain(a) && Plain(b) && Plain(c) && Plain(d) && Plain(e)
    ensures
      var op := OperatorOf(s).value.0;
      var x, y, z, u, v := Variable(a), Variable(b), Variable(c), Variable(d), Variable(e);
      && Parses([Ident(a), Sym(s), Ident(b), Sym(QUESTION), Ident(c), Sym(COLON), Ident(d), EOF],
                Ternary(Binary(op, x, y), z, u))
      && Parses([Ident(a), Sym(QUESTION), Ident(b), Sym(COLON), Ident(c), Sym(s), Ident(d), EOF],
                Ternary(x, y, Binary(op, z, u)))
      && Parses([Ident(a), Sym(QUESTION), Ident(b), Sym(COLON), Ident(c), Sym(QUESTION),
          Ident(d), Sym(COLON), Ident(e), EOF],
                Ternary(x, y, Ternary(z, u, v)))
  {
    hide Parses, OperatorOf;
    OperatorInTest(s, a, b, c, d);
    OperatorInBranch(s, a, b, c, d);
    TernaryInBranch(a, b, c, d, e);
  }

  lemma OperatorInTest(s: Symbol, a: string, b: string, c: string, d: string)
    requires OperatorOf(s).Some? && Plain(a) && Plain(b) && Plain(c) && Plain(d)
    ensures Parses([Ident(a), Sym(s), Ident(b), Sym(QUESTION), Ident(c), Sym(COLON), Ident(d), EOF],
                   Ternary(Binary(OperatorOf(s).value.0, Variable(a), Variable(b)), Variable(c), Variable(d)))
  {
    hide Parses, OperatorTokens, OperatorOf, Normal, Bare, Spelled, BinaryStrength;
    OperatorIs(s);
    var op := OperatorOf(s).value.0;
    OperatorSpelled(op, s, a, b);
    OperatorSpelled(op, s, c, d);
    var e := Binary(op, Variable(a), Variable(b));
    TernarySpelled(e, [Ident(a), Sym(s), Ident(b)], Variable(c), [Ident(c)], Variable(d), [Ident(d)]);
    ParsesBare([Ident(a), Sym(s), Ident(b), Sym(QUESTION), Ident(c), Sym(COLON), Ident(d), EOF],
               Ternary(e, Variable(c), Variable(d)));
  }

  lemma OperatorInBranch(s: Symbol, a: string, b: string, c: string, d: string)
    requires OperatorOf(s).Some? && Plain(a) && Plain(b) && Plain(c) && Plain(d)
    ensures Parses([Ident(a), Sym(QUESTION), Ident(b), Sym(COLON), Ident(c), Sym(s), Ident(d), EOF],
                   Ternary(Variable(a), Variable(b), Binary(OperatorOf(s).value.0, Variable(c), Variable(d))))
  {
    hide Parses, OperatorTokens, OperatorOf, Normal, Bare, Spelled, BinaryStrength;
    OperatorIs(s);
    var op := OperatorOf(s).value.0;
    OperatorSpelled(op, s, a, b);
    OperatorSpelled(op, s, c, d);
    var e := Binary(op, Variable(c), Variable(d));
    TernarySpelled(Variable(a), [Ident(a)], Variable(b), [Ident(b)], e, [Ident(c), Sym(s), Ident(d)]);
    ParsesBare([Ident(a), Sym(QUESTION), Ident(b), Sym(COLON), Ident(c), Sym(s), Ident(d), EOF],
               Ternary(Variable(a), Variable(b), e));
  }

  lemma TernaryInBranch(a: string, b: string, c: string, d: string, e: string)
    requires Plain(a) && Plain(b) && Plain(c) && Plain(d) && Plain(e)
    ensures Parses([Ident(a), Sym(QUESTION), Ident(b), Sym(COLON), Ident(c), Sym(QUESTION), Ident(d), Sym(COLON),
                    Ident(e), EOF],
                   Ternary(Variable(a), Variable(b), Ternary(Variable(c), Variable(d), Variable(e))))
  {
    hide Parses, OperatorTokens, Normal, Bare, Spelled, BinaryStrength;
    NoParentheses(OrOp, a, b);
    NoParentheses(OrOp, c, d);
    NoParentheses(OrOp, d, e);
    var inner := Ternary(Variable(c), Variable(d), Variable(e));
    TernarySpelled(Variable(c), [Ident(c)], Variable(d), [Ident(d)], Variable(e), [Ident(e)]);
    TernarySpelled(Variable(a), [Ident(a)], Variable(b), [Ident(b)], inner,
                   [Ident(c), Sym(QUESTION), Ident(d), Sym(COLON), Ident(e)]);
    ParsesBare([Ident(a), Sym(QUESTION), Ident(b), Sym(COLON), Ident(c), Sym(QUESTION), Ident(d), Sym(COLON),
                Ident(e), EOF],
               Ternary(Variable(a), Variable(b), inner));
  }

  /** Assignment binds loosest of all, and groups to the right. */
  lemma Assignments(s: Symbol, a: string, b: string, c: string, d: string)
    requires OperatorOf(s).Some? && Plain(a) && Plain(b) && Plain(c) && Plain(d)
    ensures
      var op := OperatorOf(s).value.0;
      var x, y, z, u := Variable(a), Variable(b), Variable(c), Variable(d);
      && Parses([Ident(a), Sym(EQUAL), Ident(b), Sym(s), Ident(c), EOF], Assignment(x, PlainSet, Binary(op, y, z)))
      && Parses([Ident(a), Sym(EQUAL), Ident(b), Sym(PLUS_EQUAL), Ident(c), EOF],
                Assignment(x, PlainSet, Assignment(y, AddSet, z)))
      && Parses([Ident(a), Sym(EQUAL), Ident(b), Sym(QUESTION), Ident(c), Sym(COLON), Ident(d), EOF],
                Assignment(x, PlainSet, Ternary(y, z, u)))
  {
    hide Parses, OperatorTokens, OperatorOf, Normal, Bare, Spelled, BinaryStrength;
    OperatorIs(s);
    var op := OperatorOf(s).value.0;
    var x, y, z, u := Variable(a), Variable(b), Variable(c), Variable(d);
    OperatorSpelled(op, s, b, c);
    OperatorSpelled(op, s, c, d);
    AssignmentSpelled(a, PlainSet, Binary(op, y, z), [Ident(b), Sym(s), Ident(c)]);
    ParsesBare([Ident(a), Sym(EQUAL), Ident(b), Sym(s), Ident(c), EOF], Assignment(x, PlainSet, Binary(op, y, z)));
    AssignmentSpelled(b, AddSet, z, [Ident(c)]);
    AssignmentSpelled(a, PlainSet, Assignment(y, AddSet, z), [Ident(b), Sym(PLUS_EQUAL), Ident(c)]);
    ParsesBare([Ident(a), Sym(EQUAL), Ident(b), Sym(PLUS_EQUAL), Ident(c), EOF],
               Assignment(x, PlainSet, Assignment(y, AddSet, z)));
    TernarySpelled(y, [Ident(b)], z, [Ident(c)], u, [Ident(d)]);
    AssignmentSpelled(a, PlainSet, Ternary(y, z, u), [Ident(b), Sym(QUESTION), Ident(c), Sym(COLON), Ident(d)]);
    ParsesBare([Ident(a), Sym(EQUAL), Ident(b), Sym(QUESTION), Ident(c), Sym(COLON), Ident(d), EOF],
               Assignment(x, PlainSet, Ternary(y, z, u)));
  }

  lemma OperatorSpelled(op: BinaryOp, s: Symbol, a: string, b: string)
    requires op != ConcatOp && OperatorTokens(op) == [Sym(s)] && BinaryStrength(op) >= 3 && Plain(a) && Plain(b)
    ensures
      var e := Binary(op, Variable(a), Variable(b));
      Normal(e) && forall least :: 0 <= least <= 3 ==> Spelled(least, e) == [Ident(a), Sym(s), Ident(b)]
    ensures forall name, least :: name in [a, b] && 0 <= least <= 14 ==>
      Spelled(least, Variable(name)) == [Ident(name)] && Normal(Variable(name))
  {
    hide OperatorTokens, BinaryStrength, Normal, Bare, Spelled;
    NoParentheses(op, a, b);
    assert [Ident(a)] + [Sym(s)] + [Ident(b)] == [Ident(a), Sym(s), Ident(b)];
  }

  lemma TernarySpelled(c: Tree, cs: Tokens, t: Tree, ts: Tokens, f: Tree, fs: Tokens)
    requires Spelled(3, c) == cs && Spelled(1, t) == ts && Spelled(2, f) == fs && Normal(c) && Normal(t) && Normal(f)
    ensures
      var e := Ternary(c, t, f);
      Normal(e) && Spelled(2, e) == Spelled(1, e) == Bare(e) == cs + [Sym(QUESTION)] + ts + [Sym(COLON)] + fs
  {
  }

  lemma AssignmentSpelled(a: string, op: AssignmentOp, e: Tree, ts: Tokens)
    requires Plain(a) && Spelled(1, e) == ts && Normal(e)
    ensures
      var whole := Assignment(Variable(a), op, e);
      Normal(whole) && Spelled(1, whole) == Bare(whole) == [Ident(a), StoreToken(op)] + ts
  {
    NameIs(2, a);
    assert Normal(Variable(a));
    assert [Ident(a)] + [StoreToken(op)] + ts == [Ident(a), StoreToken(op)] + ts;
  }

  // ----- Fields by number -----

  /** The digits of a decimal from the left. */
  function Valued(n: nat, digits: string): nat
    decreases digits
  {
    if digits == "" then n
    else Valued(10 * n + (if '0' <= digits[0] <= '9' then digits[0] as int - '0' as int else 0), digits[1..])
  }

  lemma {:induction false} ValuedLast(n: nat, digits: string, c: char)
    requires '0' <= c <= '9'
    ensures Valued(n, digits + [c]) == 10 * Valued(n, digits) + (c as int - '0' as int)
    decreases digits
  {
    if digits == "" {
      assert (digits + [c])[1..] == "";
    } else {
      assert (digits + [c])[1..] == digits[1..] + [c];
      ValuedLast(10 * n + (if '0' <= digits[0] <= '9' then digits[0] as int - '0' as int else 0), digits[1..], c);
    }
  }

  lemma IntegerLast(front: string, c: char)
    requires '0' <= c <= '9'
    ensures front == "" ==> IntegerOf(front + [c]) == Some(c as int - '0' as int)
    ensures front != "" && IntegerOf(front).Some? ==>
      IntegerOf(front + [c]) == Some(10 * IntegerOf(front).value + (c as int - '0' as int))
  {
    hide IntegerOf;
    var digits := front + [c];
    IntegerStart(digits);
    assert digits[|digits| - 1] == c && digits[..|digits| - 1] == front;
  }

  lemma IntegerStart(text: string)
    requires text != "" && IsDigit(text[|text| - 1])
    ensures
      var last, front := DigitValue(text[|text| - 1]), IntegerOf(text[..|text| - 1]);
      IntegerOf(text) == if |text| == 1 then Some(last) else if front.None? then None
        else Some(10 * front.value + last)
  {
    hide DigitValue;
  }

  lemma {:induction false} IntegerIsValued(digits: string)
    requires digits != "" && forall c :: c in digits ==> '0' <= c <= '9'
    ensures IntegerOf(digits) == Some(Valued(0, digits))
    decreases |digits|
  {
    hide IntegerOf, Valued;
    var front, last := digits[..|digits| - 1], digits[|digits| - 1];
    assert digits == front + [last] && last in digits;
    IntegerLast(front, last);
    ValuedLast(0, front, last);
    if front == "" {
      assert Valued(0, "") == 0 by { ValuedNone(); }
    } else {
      assert forall c :: c in front ==> c in digits;
      IntegerIsValued(front);
    }
  }

  lemma ValuedNone()
    ensures Valued(0, "") == 0
  {
  }

  /** A `$` in front of digits is the field of that number, with leading zeros or without. */
  lemma NumberedField(digits: string)
    requires digits != "" && forall c :: c in digits ==> '0' <= c <= '9'
    ensures Parses([Sym(DOLLAR), Num(digits), EOF], FixedField(Valued(0, digits)))
  {
    hide Valued, Tail, Parses, IntegerOf;
    var ts, index := [Sym(DOLLAR), Num(digits), EOF], NumberLit(digits);
    IntegerIsValued(digits);
    assert Bare(index) == [Num(digits)] && Normal(index);
    assert ts[1..] == [Num(digits)] + [EOF];
    NumberReads(digits);
    PrimaryField(ts, digits);
    ParsesPrimary(ts, FixedField(Valued(0, digits)));
  }

  lemma NumberReads(digits: string)
    ensures Parse(UNARY, false, [Num(digits), EOF]) == Some(Parsed(NumberLit(digits), [EOF]))
  {
    hide Parse;
    var e := NumberLit(digits);
    assert PrintAt(UNARY, false, e) == [Num(digits)] && Normal(e);
    hide PrintAt;
    assert Clear(UNARY, false, EOF) && Joint([Num(digits)], [EOF]);
    PrintedReads(UNARY, false, e, [EOF]);
    assert [Num(digits)] + [EOF] == [Num(digits), EOF];
  }

  lemma PrimaryField(ts: Tokens, digits: string)
    requires ts == [Sym(DOLLAR), Num(digits), EOF] && IntegerOf(digits).Some? && '.' !in digits
    requires Parse(UNARY, false, [Num(digits), EOF]) == Some(Parsed(NumberLit(digits), [EOF]))
    ensures Primary(ts) == Some(Parsed(FixedField(IntegerOf(digits).value), [EOF]))
  {
    hide Parse, IntegerOf;
    assert ts[1..] == [Num(digits), EOF];
  }

  lemma ParsesPrimary(ts: Tokens, e: Tree)
    requires Primary(ts) == Some(Parsed(e, [EOF])) && UnaryOpOf(First(ts)).None?
    ensures Parses(ts, e)
  {
    hide Primary, Tail, Clear, UnaryOpOf;
    NothingFollows();
    assert Reads(PRIMARY, false, ts, e, [EOF]);
    hide Parse;
    Rise(PRIMARY, 0, false, ts, e, [EOF]);
  }

  // ----- What is not an expression, and where one stops -----

  /** What stands left of an assignment is a variable, an element or a field. */
  predicate Assigns(e: Tree) {
    match e
    case Call(_, args) => forall a :: a in args ==> Assigns(a)
    case Element(_, subscripts) => forall s :: s in subscripts ==> Assigns(s)
    case Field(index) => Assigns(index)
    case Postfix(_, operand) => Assigns(operand)
    case Unary(_, operand) => Assigns(operand)
    case Binary(_, l, r) => Assigns(l) && Assigns(r)
    case Ternary(c, t, f) => Assigns(c) && Assigns(t) && Assigns(f)
    case Assignment(target, _, value) =>
      (target.Variable? || target.Element? || target.Field? || target.FixedField?) && Assigns(target) && Assigns(value)
    case _ => true
  }

  lemma {:induction false} NormalAssigns(e: Tree)
    requires Normal(e)
    ensures Assigns(e)
    decreases e
  {
    match e
    case Call(_, args) => forall a | a in args ensures Assigns(a) { NormalAssigns(a); }
    case Element(_, subscripts) => forall s | s in subscripts ensures Assigns(s) { NormalAssigns(s); }
    case Field(index) => NormalAssigns(index);
    case Postfix(_, operand) => NormalAssigns(operand);
    case Unary(_, operand) => NormalAssigns(operand);
    case Binary(_, l, r) => NormalAssigns(l); NormalAssigns(r);
    case Ternary(c, t, f) => NormalAssigns(c); NormalAssigns(t); NormalAssigns(f);
    case Assignment(target, _, value) => NormalAssigns(target); NormalAssigns(value);
    case _ =>
  }

  /** Whatever is parsed assigns only to what can be assigned to; `getline` is no expression here, a bare
      `length` is a call; and where a redirection may follow, a `>` ends the expression. */
  lemma Boundaries(level: nat, stop: bool, ts: Tokens, a: string, b: string)
    requires level <= 13 && Plain(a)
    ensures Parse(level, stop, ts).Some? ==> Assigns(Parse(level, stop, ts).value.tree)
    ensures Parses([Ident("length"), EOF], Call("length", []))
    ensures Parse(0, false, [Ident("getline"), EOF]) == None
    ensures Parse(0, true, [Ident(a), Sym(GREATER), Ident(b), EOF])
      == Some(Parsed(Variable(a), [Sym(GREATER), Ident(b), EOF]))
  {
    hide Assigns, Normal;
    if Parse(level, stop, ts).Some? {
      ParseIsNormal(level, stop, ts);
      NormalAssigns(Parse(level, stop, ts).value.tree);
    }
    BareLength();
    NoGetline();
    StopsAtGreater(a, b);
  }

  lemma BareLength()
    ensures Parses([Ident("length"), EOF], Call("length", []))
  {
    hide Tail, Clear, Parses;
    var ts, e := [Ident("length"), EOF], Call("length", []);
    assert ts[1..] == [EOF];
    assert Primary(ts) == Some(Parsed(e, [EOF]));
    ParsesPrimary(ts, e);
  }

  lemma NoGetline()
    ensures Parse(0, false, [Ident("getline"), EOF]) == None
  {
    var ts := [Ident("getline"), EOF];
    assert Primary(ts) == None;
    hide Primary, Tail;
    NoOperand(0, ts);
  }

  lemma {:induction false} NoOperand(level: nat, ts: Tokens)
    requires level <= PRIMARY && Primary(ts) == None && UnaryOpOf(First(ts)).None?
    ensures Parse(level, false, ts) == None
    decreases PRIMARY - level
  {
    hide Primary, Tail;
    if level < PRIMARY { NoOperand(level + 1, ts); }
  }

  lemma StopsAtGreater(a: string, b: string)
    requires Plain(a)
    ensures Parse(0, true, [Ident(a), Sym(GREATER), Ident(b), EOF])
      == Some(Parsed(Variable(a), [Sym(GREATER), Ident(b), EOF]))
  {
    hide Parse;
    var rest := [Sym(GREATER), Ident(b), EOF];
    assert PrintAt(0, true, Variable(a)) == [Ident(a)] && Normal(Variable(a));
    assert Clear(0, true, Sym(GREATER)) && Joint([Ident(a)], rest);
    PrintedReads(0, true, Variable(a), rest);
    assert [Ident(a)] + rest == [Ident(a), Sym(GREATER), Ident(b), EOF];
  }

  /** Where a redirection may follow, no other operator ends the expression. */
  lemma OnlyGreaterStops(s: Symbol, a: string, b: string)
    requires OperatorOf(s).Some? && s != GREATER && Plain(a) && Plain(b)
    ensures Parse(0, true, [Ident(a), Sym(s), Ident(b), EOF])
      == Some(Parsed(Binary(OperatorOf(s).value.0, Variable(a), Variable(b)), [EOF]))
  {
    hide Parse, OperatorTokens, OperatorOf, Normal, Print, PrintAt, Bare, BinaryStrength;
    OperatorIs(s);
    var op, x, y := OperatorOf(s).value.0, Variable(a), Variable(b);
    var e := Binary(op, x, y);
    NotGreater(s);
    NoParentheses(op, a, b);
    BareIsPrinted(e);
    SameStopped(op, a, b);
    assert [Ident(a)] + [Sym(s)] + [Ident(b)] + [EOF] == [Ident(a), Sym(s), Ident(b), EOF];
    StoppedEnd([Ident(a), Sym(s), Ident(b)]);
    PrintedReads(0, true, e, [EOF]);
  }

  lemma NotGreater(s: Symbol)
    requires OperatorOf(s).Some? && s != GREATER
    ensures OperatorOf(s).value.0 != GreaterOp
  {
  }

  lemma StoppedEnd(ts: Tokens)
    ensures Clear(0, true, First([EOF])) && Joint(ts, [EOF])
  {
  }

  lemma SameStopped(op: BinaryOp, a: string, b: string)
    requires op != ConcatOp && op != GreaterOp
    ensures
      var e := Binary(op, Variable(a), Variable(b));
      PrintAt(0, true, e) == Print(true, e) == Print(false, e)
  {
    var x, y := Variable(a), Variable(b);
    assert forall level: nat, stop :: level <= 13 ==>
      PrintAt(level, stop, x) == [Ident(a)] && PrintAt(level, stop, y) == [Ident(b)];
    hide PrintAt;
    assert Print(true, Binary(op, x, y)) == Print(false, Binary(op, x, y));
    SameLevel(op, a, b);
  }

  lemma SameLevel(op: BinaryOp, a: string, b: string)
    requires op != GreaterOp
    ensures var e := Binary(op, Variable(a), Variable(b)); PrintAt(0, true, e) == Print(true, e)
  {
    hide Print;
  }
}

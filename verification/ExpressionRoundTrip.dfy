/** Parsing undoes printing: the printed tokens of a tree, followed by any token that cannot
    continue an expression, parse to that tree, and the parser stops exactly there. */
module ExpressionRoundTrip {
  import opened Options
  import opened Texts
  import opened ExpressionGrammar

  // ----- What cannot continue an expression -----

  /** No rule from `level` inwards takes the token. */
  predicate Clear(level: nat, stop: bool, t: Token) {
    && (level <= POSTFIX ==> PostfixOpOf(t).None?)
    && (level <= POWER ==> t != Sym(CARET))
    && (level <= MULTIPLICATIVE ==> OpOf(MULTIPLICATIVE, stop, t).None?)
    && (level <= ADDITIVE ==> OpOf(ADDITIVE, stop, t).None?)
    && (level <= CONCAT ==> !StartsExpression(t))
    && (level <= MEMBERSHIP ==> t != Sym(IN))
    && (level <= MATCHING ==> OpOf(MATCHING, stop, t).None?)
    && (level <= COMPARISON ==> OpOf(COMPARISON, stop, t).None?)
    && (level <= AND ==> OpOf(AND, stop, t).None?)
    && (level <= OR ==> OpOf(OR, stop, t).None?)
    && (level <= CONDITIONAL ==> t != Sym(QUESTION))
    && (level <= ASSIGN ==> AssignmentOpOf(t).None?)
  }

  /** A name at the end is not taken for a call or an array. */
  predicate Joint(ts: Tokens, rest: Tokens) {
    EndsInName(ts) ==> First(rest) != Sym(LPAREN) && First(rest) != Sym(LBRACKET)
  }

  lemma TailStops(level: nat, stop: bool, e: Tree, ts: Tokens)
    requires level < PRIMARY && Clear(level, stop, First(ts))
    ensures Tail(level, stop, e, ts) == Some(Parsed(e, ts))
  {
  }

  ghost predicate Reads(level: nat, stop: bool, ts: Tokens, e: Tree, rest: Tokens)
    requires level <= PRIMARY
  {
    Parse(level, stop, ts) == Some(Parsed(e, rest))
  }

  /** What is read at an inner level is read at an outer one. */
  lemma {:induction false} Rise(from: nat, to: nat, stop: bool, ts: Tokens, e: Tree, rest: Tokens)
    requires to <= from <= PRIMARY && Reads(from, stop, ts, e, rest) && Clear(to, stop, First(rest))
    requires to <= UNARY < from ==> UnaryOpOf(First(ts)).None?
    ensures Reads(to, stop, ts, e, rest)
    decreases from - to
  {
    hide Tail, Clear, Primary, UnaryOpOf;
    if to < from {
      ClearFurther(to, stop, First(rest));
      TailStops(to, stop, e, rest);
      Rise(from, to + 1, stop, ts, e, rest);
    }
  }

  // ----- One rule at a time -----

  /** A level whose operand has been read goes on with its own rule. */
  lemma Onward(level: nat, stop: bool, ts: Tokens, e: Tree, rest: Tokens)
    requires level < PRIMARY && level != UNARY && Reads(level + 1, stop, ts, e, rest)
    ensures Parse(level, stop, ts) == Tail(level, stop, e, rest)
  {
    hide Tail, Primary;
  }

  lemma ClearFurther(level: nat, stop: bool, t: Token)
    requires Clear(level, stop, t)
    ensures Clear(level + 1, stop, t)
  {
    hide OpOf, StartsExpression, PostfixOpOf, AssignmentOpOf;
  }

  lemma ClearInner(level: nat, inner: nat, stop: bool, t: Token)
    requires Clear(level, stop, t) && level <= inner
    ensures Clear(inner, stop, t)
  {
    hide OpOf, StartsExpression, PostfixOpOf, AssignmentOpOf;
  }

  lemma AssignmentTail(stop: bool, target: Tree, ts: Tokens, value: Tree, rest: Tokens)
    requires AssignmentOpOf(First(ts)).Some? && IsLvalue(target) && Reads(ASSIGN, false, ts[1..], value, rest)
    ensures Tail(ASSIGN, stop, target, ts)
      == Some(Parsed(Assignment(target, AssignmentOpOf(First(ts)).value, value), rest))
  {
    hide Parse;
  }

  lemma TernaryTail(stop: bool, test: Tree, ts: Tokens, yes: Tree, mid: Tokens, no: Tree, rest: Tokens)
    requires First(ts) == Sym(QUESTION) && Reads(ASSIGN, false, ts[1..], yes, mid)
    requires First(mid) == Sym(COLON) && Reads(CONDITIONAL, false, mid[1..], no, rest)
    ensures Tail(CONDITIONAL, stop, test, ts) == Some(Parsed(Ternary(test, yes, no), rest))
  {
    hide Parse;
  }

  lemma LoopTail(level: nat, stop: bool, left: Tree, ts: Tokens, op: BinaryOp, right: Tree, rest: Tokens)
    requires Loops(level) && OpOf(level, stop, First(ts)) == Some(op) && Reads(level + 1, stop, ts[1..], right, rest)
    ensures Tail(level, stop, left, ts) == Tail(level, stop, Binary(op, left, right), rest)
  {
    hide Parse, OpOf;
  }

  lemma InTail(stop: bool, left: Tree, ts: Tokens, right: Tree, rest: Tokens)
    requires First(ts) == Sym(IN) && Reads(CONCAT, stop, ts[1..], right, rest)
    ensures Tail(MEMBERSHIP, stop, left, ts) == Some(Parsed(Binary(InOp, left, right), rest))
  {
    hide Parse;
  }

  lemma PowerTail(stop: bool, left: Tree, ts: Tokens, right: Tree, rest: Tokens)
    requires First(ts) == Sym(CARET) && Reads(POWER, stop, ts[1..], right, rest)
    ensures Tail(POWER, stop, left, ts) == Some(Parsed(Binary(PowOp, left, right), rest))
  {
    hide Parse;
  }

  lemma GroupPrimary(stop: bool, inside: Tokens, e: Tree, rest: Tokens)
    requires Reads(ASSIGN, false, inside + ([Sym(RPAREN)] + rest), e, [Sym(RPAREN)] + rest)
    ensures Reads(PRIMARY, stop, Grouped(inside) + rest, e, rest)
  {
    var after := [Sym(RPAREN)] + rest;
    var ts := Grouped(inside) + rest;
    assert ts == [Sym(LPAREN)] + (inside + after);
    assert ts[1..] == inside + after && after[1..] == rest;
    assert Parse(PRIMARY, stop, ts) == Primary(ts);
    hide Parse;
  }

  /** Closing symbols and separators continue no expression, nor does `?` a test. */
  lemma StopSymbol(level: nat, stop: bool, s: Symbol)
    requires s == RPAREN || s == RBRACKET || s == COMMA || s == COLON || (s == QUESTION && level >= OR)
    ensures Clear(level, stop, Sym(s))
  {
  }

  /** An operator between two operands, and what follows them. */
  lemma Around(l: Tokens, t: Token, r: Tokens, rest: Tokens)
    ensures
      var after := [t] + (r + rest);
      (l + [t] + r) + rest == l + after && after[1..] == r + rest && First(after) == t
        && Joint(l, after) == (EndsInName(l) ==> t != Sym(LPAREN) && t != Sym(LBRACKET))
  {
    var after := [t] + (r + rest);
    assert (l + [t] + r) + rest == l + after;
  }

  /** What ends in the tokens given ends as they do. */
  lemma JointEnd(before: Tokens, last: Tokens, rest: Tokens)
    requires last != []
    ensures Joint(before + last, rest) == Joint(last, rest)
  {
  }

  // ----- How printed trees begin -----

  lemma {:induction false} Begins(stop: bool, e: Tree)
    ensures
      var ts := Print(stop, e);
      ts != [] && StartsExpression(ts[0]) && (LevelOf(e) > UNARY ==> UnaryOpOf(ts[0]).None?)
    decreases e, 1
  {
    match e
    case Postfix(_, operand) => BeginsAt(PRIMARY, stop, operand);
    case Binary(_, _, _) => BinaryBegins(stop, e);
    case Ternary(c, _, _) => BeginsAt(OR, false, c);
    case Assignment(target, _, _) => BeginsAt(CONDITIONAL, false, target);
    case _ =>
  }

  lemma {:induction false} BinaryBegins(stop: bool, e: Tree)
    requires e.Binary?
    ensures
      var ts := Print(stop, e);
      ts != [] && StartsExpression(ts[0])
    decreases e, 0
  {
    var op, l := e.bop, e.left;
    var level := if op == PowOp then UNARY else if op == InOp then CONCAT else LevelOfOp(op);
    BeginsAt(level, stop, l);
    hide PrintAt, StartsExpression, UnaryOpOf, LevelOf;
    if op == ConcatOp {
      GroupBegins(Print(false, l));
      var right := RightPart(stop, e.right);
      assert Print(stop, e) == LeftPart(stop, l, right) + right;
    } else {
      assert Print(stop, e)[0] == PrintAt(level, stop, l)[0];
    }
  }

  lemma GroupBegins(ts: Tokens)
    ensures Grouped(ts) != [] && StartsExpression(Grouped(ts)[0]) && !Clings(Grouped(ts)[0])
  {
  }

  lemma {:induction false} BeginsAt(level: nat, stop: bool, e: Tree)
    ensures
      var ts := PrintAt(level, stop, e);
      ts != [] && StartsExpression(ts[0]) && (level > UNARY ==> UnaryOpOf(ts[0]).None?)
    decreases e, 2
  {
    Begins(stop, e);
  }

  // ----- Numbers -----

  lemma {:induction false} DecimalReads(n: nat)
    ensures IntegerOf(Decimal(n)) == Some(n) && '.' !in Decimal(n) && Decimal(n) != ""
  {
    if n >= 10 {
      DecimalReads(n / 10);
      var front, last := Decimal(n / 10), '0' + (n % 10) as char;
      assert (front + [last])[..|front|] == front;
    }
  }

  // ----- The round trip -----

  /** In parentheses any tree is a primary. */
  lemma {:induction false} GroupedReads(level: nat, stop: bool, e: Tree, rest: Tokens)
    requires level <= PRIMARY && Normal(e) && Clear(level, stop, First(rest))
    ensures Reads(level, stop, Grouped(Print(false, e)) + rest, e, rest)
    decreases e, 3
  {
    var inside, after := Print(false, e), [Sym(RPAREN)] + rest;
    hide Parse, Tail, Print, OpOf, Normal;
    StopSymbol(LevelOf(e), false, RPAREN);
    StopSymbol(ASSIGN, false, RPAREN);
    BareReads(false, e, after);
    Begins(false, e);
    assert First(inside + after) == inside[0];
    Rise(LevelOf(e), ASSIGN, false, inside + after, e, after);
    GroupPrimary(stop, inside, e, rest);
    assert First(Grouped(inside) + rest) == Sym(LPAREN);
    Rise(PRIMARY, level, stop, Grouped(inside) + rest, e, rest);
  }

  /** The round trip at any level. */
  lemma {:induction false} PrintedReads(level: nat, stop: bool, e: Tree, rest: Tokens)
    requires level <= PRIMARY && Normal(e) && Clear(level, stop, First(rest)) && Joint(PrintAt(level, stop, e), rest)
    ensures Reads(level, stop, PrintAt(level, stop, e) + rest, e, rest)
    decreases e, 4
  {
    hide Parse, Tail, Print, Normal, Clear, Joint, UnaryOpOf;
    if LevelOf(e) < level || Exposed(stop, e) {
      GroupedReads(level, stop, e, rest);
    } else {
      ClearInner(level, LevelOf(e), stop, First(rest));
      BareReads(stop, e, rest);
      Begins(stop, e);
      assert First(Print(stop, e) + rest) == Print(stop, e)[0];
      Rise(LevelOf(e), level, stop, Print(stop, e) + rest, e, rest);
    }
  }

  /** A tree without parentheses, at its own level. */
  lemma {:induction false} BareReads(stop: bool, e: Tree, rest: Tokens)
    requires Normal(e) && !Exposed(stop, e) && Clear(LevelOf(e), stop, First(rest)) && Joint(Print(stop, e), rest)
    ensures Reads(LevelOf(e), stop, Print(stop, e) + rest, e, rest)
    decreases e, 2
  {
    hide Parse, Tail, Print, Clear;
    match e
    case StringLit(_) => LeafReads(stop, e, rest);
    case NumberLit(_) => LeafReads(stop, e, rest);
    case RegexLit(_) => LeafReads(stop, e, rest);
    case Variable(_) => LeafReads(stop, e, rest);
    case Call(_, _) => CallReads(stop, e, rest);
    case Element(_, _) => ElementReads(stop, e, rest);
    case FixedField(_) => FixedFieldReads(stop, e, rest);
    case Field(_) => FieldReads(stop, e, rest);
    case Postfix(_, _) => PostfixReads(stop, e, rest);
    case Unary(_, _) => UnaryReads(stop, e, rest);
    case Binary(op, _, _) =>
      if op == PowOp { PowerReads(stop, e, rest); }
      else if op == InOp { InReads(stop, e, rest); }
      else {
        ClearFurther(LevelOf(e), stop, First(rest));
        ChainHere(stop, e, rest);
        TailStops(LevelOf(e), stop, e, rest);
      }
    case Ternary(_, _, _) => TernaryReads(e, rest);
    case Assignment(_, _, _) => AssignmentReads(e, rest);
  }

  lemma LeafReads(stop: bool, e: Tree, rest: Tokens)
    requires (e.StringLit? || e.NumberLit? || e.RegexLit? || e.Variable?) && Normal(e) && Joint(Print(stop, e), rest)
    ensures Reads(PRIMARY, stop, Print(stop, e) + rest, e, rest)
  {
    var ts := Print(stop, e) + rest;
    assert ts[1..] == rest;
  }

  lemma {:induction false} CallReads(stop: bool, e: Tree, rest: Tokens)
    requires e.Call? && Normal(e)
    ensures Reads(PRIMARY, stop, Print(stop, e) + rest, e, rest)
    decreases e, 1
  {
    hide Parse, Tail, Print, PrintAt, PrintList, ParseList, Normal;
    CallPrinted(stop, e);
    var after := [Sym(RPAREN)] + rest;
    if e.args != [] {
      ListReads(e.args, after);
      ListBegins(e.args);
    }
    CallStart(stop, e, PrintList(e.args), rest);
  }

  lemma CallPrinted(stop: bool, e: Tree)
    requires e.Call?
    ensures Print(stop, e) == [Ident(e.function_), Sym(LPAREN)] + PrintList(e.args) + [Sym(RPAREN)]
      && (e.args == [] ==> PrintList(e.args) == [])
    ensures Normal(e) ==> e.function_ != "getline" && forall a :: a in e.args ==> Normal(a)
  {
    hide PrintAt;
  }

  lemma CallStart(stop: bool, e: Tree, args: Tokens, rest: Tokens)
    requires e.Call? && e.function_ != "getline" && (e.args == [] ==> args == [])
    requires e.args != [] ==>
      args != [] && StartsExpression(args[0])
        && ParseList(args + ([Sym(RPAREN)] + rest)) == Some(ParsedList(e.args, [Sym(RPAREN)] + rest))
    ensures Reads(PRIMARY, stop, [Ident(e.function_), Sym(LPAREN)] + args + [Sym(RPAREN)] + rest, e, rest)
  {
    hide Tail, ParseList, Primary;
    var after := [Sym(RPAREN)] + rest;
    var ts := [Ident(e.function_), Sym(LPAREN)] + args + [Sym(RPAREN)] + rest;
    CallTokens(Ident(e.function_), args, rest);
    if e.args == [] {
      EmptyCall(ts, e.function_);
    } else {
      assert First(ts[2..]) == args[0];
      FullCall(ts, e.function_, e.args, after);
    }
  }

  lemma CallTokens(name: Token, args: Tokens, rest: Tokens)
    ensures
      var ts, after := [name, Sym(LPAREN)] + args + [Sym(RPAREN)] + rest, [Sym(RPAREN)] + rest;
      && |ts| > 2 && ts[0] == name && ts[1..][0] == Sym(LPAREN) && ts[2..] == args + after && after[1..] == rest
      && (args == [] ==> ts[2..][0] == Sym(RPAREN) && ts[3..] == rest)
  {
    var ts, after := [name, Sym(LPAREN)] + args + [Sym(RPAREN)] + rest, [Sym(RPAREN)] + rest;
    assert ts == [name, Sym(LPAREN)] + (args + after);
  }

  lemma EmptyCall(ts: Tokens, name: string)
    requires First(ts) == Ident(name) && name != "getline" && First(ts[1..]) == Sym(LPAREN) && |ts| > 2
      && First(ts[2..]) == Sym(RPAREN)
    ensures Primary(ts) == Some(Parsed(Call(name, []), ts[3..]))
  {
    hide Parse, ParseList;
  }

  lemma FullCall(ts: Tokens, name: string, trees: seq<Tree>, after: Tokens)
    requires First(ts) == Ident(name) && name != "getline" && |ts| > 2 && First(ts[1..]) == Sym(LPAREN)
      && First(ts[2..]) != Sym(RPAREN)
    requires ParseList(ts[2..]) == Some(ParsedList(trees, after)) && First(after) == Sym(RPAREN)
    ensures Primary(ts) == Some(Parsed(Call(name, trees), after[1..]))
  {
    hide Parse, ParseList;
  }

  lemma {:induction false} ElementReads(stop: bool, e: Tree, rest: Tokens)
    requires e.Element? && Normal(e)
    ensures Reads(PRIMARY, stop, Print(stop, e) + rest, e, rest)
    decreases e, 1
  {
    var after := [Sym(RBRACKET)] + rest;
    var ts := Print(stop, e) + rest;
    assert ts == [Ident(e.array_), Sym(LBRACKET)] + (PrintList(e.subscripts) + after);
    assert ts[1..] == [Sym(LBRACKET)] + (PrintList(e.subscripts) + after) && ts[2..] == PrintList(e.subscripts) + after
        && after[1..] == rest;
    ListReads(e.subscripts, after);
  }

  lemma ListBegins(es: seq<Tree>)
    requires es != []
    ensures PrintList(es) != [] && StartsExpression(PrintList(es)[0])
  {
    BeginsAt(ASSIGN, false, es[0]);
  }

  lemma {:induction false} ListReads(es: seq<Tree>, rest: Tokens)
    requires es != [] && (forall e :: e in es ==> Normal(e))
      && (First(rest) == Sym(RPAREN) || First(rest) == Sym(RBRACKET))
    ensures ParseList(PrintList(es) + rest) == Some(ParsedList(es, rest))
    decreases es, 0
  {
    hide Parse, Tail, Primary, Print, PrintAt, PrintList, Normal, ParseList, Clear, Joint;
    var first := PrintAt(ASSIGN, false, es[0]);
    ListPrinted(es);
    if |es| == 1 {
      ListEnds(first, rest);
      PrintedReads(ASSIGN, false, es[0], rest);
      LastRead(first + rest, es[0], rest);
    } else {
      var more := PrintList(es[1..]);
      Around(first, Sym(COMMA), more, rest);
      ListEnds(first, [Sym(COMMA)] + (more + rest));
      PrintedReads(ASSIGN, false, es[0], [Sym(COMMA)] + (more + rest));
      ListReads(es[1..], rest);
      OneMoreRead(PrintList(es) + rest, es[0], more + rest, es[1..], rest);
    }
  }

  lemma ListPrinted(es: seq<Tree>)
    requires es != []
    ensures |es| == 1 ==> es == [es[0]] && PrintList(es) == PrintAt(ASSIGN, false, es[0])
    ensures |es| > 1 ==>
      es == [es[0]] + es[1..] && PrintList(es) == PrintAt(ASSIGN, false, es[0]) + [Sym(COMMA)] + PrintList(es[1..])
    ensures es[0] in es && forall e :: e in es[1..] ==> e in es
  {
    hide PrintAt;
  }

  lemma ListEnds(ts: Tokens, rest: Tokens)
    requires First(rest) == Sym(RPAREN) || First(rest) == Sym(RBRACKET) || First(rest) == Sym(COMMA)
    ensures Clear(ASSIGN, false, First(rest)) && Joint(ts, rest)
  {
    StopSymbol(ASSIGN, false, First(rest).symbol);
    hide Clear;
  }

  lemma LastRead(ts: Tokens, last: Tree, rest: Tokens)
    requires Reads(ASSIGN, false, ts, last, rest) && First(rest) != Sym(COMMA)
    ensures ParseList(ts) == Some(ParsedList([last], rest))
  {
    hide Parse;
  }

  lemma OneMoreRead(ts: Tokens, first: Tree, after: Tokens, more: seq<Tree>, rest: Tokens)
    requires Reads(ASSIGN, false, ts, first, [Sym(COMMA)] + after) && ParseList(after) == Some(ParsedList(more, rest))
    ensures ParseList(ts) == Some(ParsedList([first] + more, rest))
  {
    hide Parse;
    assert ([Sym(COMMA)] + after)[1..] == after;
  }

  lemma FixedFieldReads(stop: bool, e: Tree, rest: Tokens)
    requires e.FixedField? && Clear(POSTFIX, stop, First(rest))
    ensures Reads(POSTFIX, stop, Print(stop, e) + rest, e, rest)
  {
    var text := Decimal(e.number);
    var ts := Print(stop, e) + rest;
    var inner := [Num(text)] + rest;
    DecimalReads(e.number);
    assert ts[1..] == inner && inner[1..] == rest;
    assert Reads(PRIMARY, false, inner, NumberLit(text), rest);
    Rise(PRIMARY, UNARY, false, inner, NumberLit(text), rest);
    assert Reads(PRIMARY, stop, ts, e, rest);
    Rise(PRIMARY, POSTFIX, stop, ts, e, rest);
  }

  lemma {:induction false} FieldReads(stop: bool, e: Tree, rest: Tokens)
    requires e.Field? && Normal(e) && Clear(POSTFIX, stop, First(rest)) && Joint(Print(stop, e), rest)
    ensures Reads(POSTFIX, stop, Print(stop, e) + rest, e, rest)
    decreases e, 1
  {
    hide Parse, Tail, Print, PrintAt, Normal, Clear, StartsExpression;
    var inner := PrintAt(UNARY, false, e.index);
    var ts := Print(stop, e) + rest;
    FieldPrinted(stop, e);
    BeginsAt(UNARY, false, e.index);
    FieldClear(stop, First(rest));
    PrintedReads(UNARY, false, e.index, rest);
    assert ts[1..] == inner + rest;
    FieldStart(ts, e.index, rest);
    ParsePrimary(stop, ts);
    assert e == Field(e.index);
    Rise(PRIMARY, POSTFIX, stop, ts, e, rest);
  }

  lemma FieldPrinted(stop: bool, e: Tree)
    requires e.Field?
    ensures Print(stop, e) == [Sym(DOLLAR)] + PrintAt(UNARY, false, e.index) && Print(stop, e)[0] == Sym(DOLLAR)
    ensures Normal(e) ==> Normal(e.index) && !(e.index.NumberLit? && '.' !in e.index.text)
  {
    hide PrintAt;
  }

  lemma FieldClear(stop: bool, t: Token)
    requires Clear(POSTFIX, stop, t)
    ensures Clear(UNARY, false, t)
  {
  }

  lemma FieldStart(ts: Tokens, index: Tree, rest: Tokens)
    requires First(ts) == Sym(DOLLAR) && Parse(UNARY, false, ts[1..]) == Some(Parsed(index, rest))
    requires !(index.NumberLit? && '.' !in index.text)
    ensures Primary(ts) == Some(Parsed(Field(index), rest))
  {
    hide Parse, ParseList;
  }

  lemma ParsePrimary(stop: bool, ts: Tokens)
    ensures Parse(PRIMARY, stop, ts) == Primary(ts)
  {
    hide Primary, Tail;
  }

  lemma {:induction false} PostfixReads(stop: bool, e: Tree, rest: Tokens)
    requires e.Postfix? && Normal(e)
    ensures Reads(POSTFIX, stop, Print(stop, e) + rest, e, rest)
    decreases e, 1
  {
    var operand, after := PrintAt(PRIMARY, stop, e.operand), [PostfixToken(e.pop)] + rest;
    PrintedReads(PRIMARY, stop, e.operand, after);
    assert Print(stop, e) + rest == operand + after && after[1..] == rest;
  }

  lemma {:induction false} UnaryReads(stop: bool, e: Tree, rest: Tokens)
    requires e.Unary? && Normal(e) && Clear(UNARY, stop, First(rest)) && Joint(Print(stop, e), rest)
    ensures Reads(UNARY, stop, Print(stop, e) + rest, e, rest)
    decreases e, 1
  {
    hide Parse, Tail, Print, PrintAt, Normal, Clear;
    UnaryPrinted(stop, e);
    var operand := PrintAt(UNARY, stop, e.operand);
    BeginsAt(UNARY, stop, e.operand);
    assert Print(stop, e) == [UnaryToken(e.uop)] + operand;
    PrintedReads(UNARY, stop, e.operand, rest);
    UnaryStart(stop, e, operand, rest);
  }

  lemma UnaryPrinted(stop: bool, e: Tree)
    requires e.Unary?
    ensures Print(stop, e) == [UnaryToken(e.uop)] + PrintAt(UNARY, stop, e.operand) && (Normal(e) ==> Normal(e.operand))
  {
    hide PrintAt;
  }

  lemma UnaryStart(stop: bool, e: Tree, operand: Tokens, rest: Tokens)
    requires e.Unary? && Reads(UNARY, stop, operand + rest, e.operand, rest)
    ensures Reads(UNARY, stop, [UnaryToken(e.uop)] + operand + rest, e, rest)
  {
    hide Tail, Primary;
    var ts := [UnaryToken(e.uop)] + operand + rest;
    assert ts[1..] == operand + rest;
  }

  lemma {:induction false} PowerReads(stop: bool, e: Tree, rest: Tokens)
    requires e.Binary? && e.bop == PowOp && Normal(e) && Clear(POWER, stop, First(rest)) && Joint(Print(stop, e), rest)
    ensures Reads(POWER, stop, Print(stop, e) + rest, e, rest)
    decreases e, 1
  {
    hide Parse, Tail, Print, PrintAt, Normal, Clear, Joint, StartsExpression;
    var l, r := PrintAt(UNARY, stop, e.left), PrintAt(POWER, stop, e.right);
    var after := [Sym(CARET)] + (r + rest);
    InfixPrinted(stop, e);
    BeginsAt(POWER, stop, e.right);
    Around(l, Sym(CARET), r, rest);
    JointEnd(l + [Sym(CARET)], r, rest);
    PrintedReads(UNARY, stop, e.left, after);
    PrintedReads(POWER, stop, e.right, rest);
    Onward(POWER, stop, l + after, e.left, after);
    PowerTail(stop, e.left, after, e.right, rest);
  }

  lemma InfixPrinted(stop: bool, e: Tree)
    requires e.Binary? && (e.bop == PowOp || e.bop == InOp)
    ensures e.bop == PowOp ==>
      Print(stop, e) == PrintAt(UNARY, stop, e.left) + [Sym(CARET)] + PrintAt(POWER, stop, e.right)
    ensures e.bop == InOp ==>
      Print(stop, e) == PrintAt(CONCAT, stop, e.left) + [Sym(IN)] + PrintAt(CONCAT, stop, e.right)
    ensures (Normal(e) ==> Normal(e.left) && Normal(e.right)) && e == Binary(e.bop, e.left, e.right)
    ensures Clear(UNARY, stop, Sym(CARET)) && Clear(CONCAT, stop, Sym(IN))
  {
    hide PrintAt;
  }

  lemma {:induction false} InReads(stop: bool, e: Tree, rest: Tokens)
    requires e.Binary? && e.bop == InOp && Normal(e) && Clear(MEMBERSHIP, stop, First(rest))
      && Joint(Print(stop, e), rest)
    ensures Reads(MEMBERSHIP, stop, Print(stop, e) + rest, e, rest)
    decreases e, 1
  {
    hide Parse, Tail, Print, PrintAt, Normal, Clear, Joint, StartsExpression;
    var l, r := PrintAt(CONCAT, stop, e.left), PrintAt(CONCAT, stop, e.right);
    var after := [Sym(IN)] + (r + rest);
    InfixPrinted(stop, e);
    BeginsAt(CONCAT, stop, e.right);
    Around(l, Sym(IN), r, rest);
    JointEnd(l + [Sym(IN)], r, rest);
    ClearFurther(MEMBERSHIP, stop, First(rest));
    PrintedReads(CONCAT, stop, e.left, after);
    PrintedReads(CONCAT, stop, e.right, rest);
    Onward(MEMBERSHIP, stop, l + after, e.left, after);
    InTail(stop, e.left, after, e.right, rest);
  }

  lemma TernaryPieces(c: Tokens, t: Tokens, f: Tokens, rest: Tokens)
    ensures
      var last := [Sym(COLON)] + (f + rest);
      var after := [Sym(QUESTION)] + (t + last);
      && (c + [Sym(QUESTION)] + t + [Sym(COLON)] + f) + rest == c + after && after[1..] == t + last
        && last[1..] == f + rest
      && First(after) == Sym(QUESTION) && First(last) == Sym(COLON) && Joint(c, after) && Joint(t, last)
  {
  }

  lemma TernaryOperands(e: Tree)
    requires e.Ternary? && Normal(e)
    ensures Normal(e.test) && Normal(e.ifTrue) && Normal(e.ifFalse)
  {
  }

  lemma TernaryJoined(e: Tree, ts: Tokens, after: Tokens, last: Tokens, rest: Tokens)
    requires e.Ternary? && Reads(OR, false, ts, e.test, after) && First(after) == Sym(QUESTION)
    requires Reads(ASSIGN, false, after[1..], e.ifTrue, last) && First(last) == Sym(COLON)
      && Reads(CONDITIONAL, false, last[1..], e.ifFalse, rest)
    ensures Reads(CONDITIONAL, false, ts, e, rest)
  {
    hide Parse, Tail;
    Onward(CONDITIONAL, false, ts, e.test, after);
    TernaryTail(false, e.test, after, e.ifTrue, last, e.ifFalse, rest);
  }

  lemma TernaryPrinted(e: Tree)
    requires e.Ternary?
    ensures Print(false, e) == PrintAt(OR, false, e.test) + [Sym(QUESTION)] + PrintAt(ASSIGN, false, e.ifTrue)
      + [Sym(COLON)]
                                + PrintAt(CONDITIONAL, false, e.ifFalse)
  {
  }

  lemma {:induction false} TernaryReads(e: Tree, rest: Tokens)
    requires e.Ternary? && Normal(e) && Clear(CONDITIONAL, false, First(rest)) && Joint(Print(false, e), rest)
    ensures Reads(CONDITIONAL, false, Print(false, e) + rest, e, rest)
    decreases e, 1
  {
    var c, t, f := PrintAt(OR, false, e.test), PrintAt(ASSIGN, false, e.ifTrue), PrintAt(CONDITIONAL, false, e.ifFalse);
    var last := [Sym(COLON)] + (f + rest);
    var after := [Sym(QUESTION)] + (t + last);
    BeginsAt(CONDITIONAL, false, e.ifFalse);
    JointEnd(c + [Sym(QUESTION)] + t + [Sym(COLON)], f, rest);
    StopSymbol(OR, false, QUESTION);
    StopSymbol(ASSIGN, false, COLON);
    TernaryPrinted(e);
    TernaryPieces(c, t, f, rest);
    TernaryOperands(e);
    hide *;
    PrintedReads(OR, false, e.test, after);
    PrintedReads(ASSIGN, false, e.ifTrue, last);
    PrintedReads(CONDITIONAL, false, e.ifFalse, rest);
    TernaryJoined(e, c + after, after, last, rest);
  }

  lemma AssignmentPrinted(e: Tree)
    requires e.Assignment? && Normal(e)
    ensures Print(false, e) == PrintAt(CONDITIONAL, false, e.target) + [AssignmentToken(e.aop)]
      + PrintAt(ASSIGN, false, e.value)
    ensures Normal(e.target) && Normal(e.value) && IsLvalue(e.target) && e == Assignment(e.target, e.aop, e.value)
    ensures
      var t := AssignmentToken(e.aop);
      AssignmentOpOf(t) == Some(e.aop) && Clear(CONDITIONAL, false, t) && t != Sym(LPAREN) && t != Sym(LBRACKET)
  {
    AssignmentClear(e.aop);
    hide Clear, AssignmentToken, AssignmentOpOf;
  }

  lemma AssignmentClear(op: AssignmentOp)
    ensures
      var t := AssignmentToken(op);
      AssignmentOpOf(t) == Some(op) && Clear(CONDITIONAL, false, t) && t != Sym(LPAREN) && t != Sym(LBRACKET)
  {
  }

  lemma {:induction false} AssignmentReads(e: Tree, rest: Tokens)
    requires e.Assignment? && Normal(e) && Clear(ASSIGN, false, First(rest)) && Joint(Print(false, e), rest)
    ensures Reads(ASSIGN, false, Print(false, e) + rest, e, rest)
    decreases e, 1
  {
    hide Parse, Tail, Print, PrintAt, Normal, Clear;
    var l, r, t := PrintAt(CONDITIONAL, false, e.target), PrintAt(ASSIGN, false, e.value), AssignmentToken(e.aop);
    var after := [t] + (r + rest);
    BeginsAt(ASSIGN, false, e.value);
    Around(l, t, r, rest);
    JointEnd(l + [t], r, rest);
    AssignmentPrinted(e);
    hide *;
    PrintedReads(CONDITIONAL, false, e.target, after);
    PrintedReads(ASSIGN, false, e.value, rest);
    Onward(ASSIGN, false, l + after, e.target, after);
    AssignmentTail(false, e.target, after, e.value, rest);
  }

  // ----- Operators read in a loop -----

  predicate Chains(level: nat) {
    Loops(level) || level == CONCAT
  }

  /** An operand of a left-grouping level: the level goes on from it with its loop. */
  lemma {:induction false} Chain(level: nat, stop: bool, e: Tree, rest: Tokens)
    requires Chains(level) && Normal(e) && Clear(level + 1, stop, First(rest)) && Joint(PrintAt(level, stop, e), rest)
    ensures Parse(level, stop, PrintAt(level, stop, e) + rest) == Tail(level, stop, e, rest)
    decreases e, 5
  {
    hide Parse, Tail, Print;
    if LevelOf(e) == level && !Exposed(stop, e) {
      ChainHere(stop, e, rest);
    } else {
      PrintedReads(level + 1, stop, e, rest);
      Onward(level, stop, PrintAt(level + 1, stop, e) + rest, e, rest);
    }
  }

  lemma {:induction false} ChainHere(stop: bool, e: Tree, rest: Tokens)
    requires Chains(LevelOf(e)) && Normal(e) && !Exposed(stop, e)
    requires Clear(LevelOf(e) + 1, stop, First(rest)) && Joint(Print(stop, e), rest)
    ensures Parse(LevelOf(e), stop, Print(stop, e) + rest) == Tail(LevelOf(e), stop, e, rest)
    decreases e, 1
  {
    if e.bop == ConcatOp { ConcatHere(stop, e, rest); } else { LoopHere(stop, e, rest); }
  }

  /** Both operands of a left-grouping operator: the loop after the left one, and the right one. */
  lemma {:induction false} LoopOperands(level: nat, stop: bool, left: Tree, after: Tokens,
                                        right: Tree, r: Tokens, rest: Tokens)
    requires Loops(level) && Normal(left) && Normal(right) && r == PrintAt(level + 1, stop, right)
    requires Clear(level + 1, stop, First(after)) && Joint(PrintAt(level, stop, left), after)
    requires Clear(level + 1, stop, First(rest)) && Joint(r, rest)
    ensures Parse(level, stop, PrintAt(level, stop, left) + after) == Tail(level, stop, left, after)
    ensures Reads(level + 1, stop, r + rest, right, rest)
    decreases if left < right then right else left, 7
  {
    hide Parse, Tail, Print, PrintAt, Normal, Clear, Joint;
    Chain(level, stop, left, after);
    PrintedReads(level + 1, stop, right, rest);
  }

  lemma LoopPrinted(stop: bool, e: Tree)
    requires e.Binary? && Loops(LevelOf(e))
    ensures Print(stop, e) == PrintAt(LevelOf(e), stop, e.left) + [Sym(SymbolOf(e.bop))]
      + PrintAt(LevelOf(e) + 1, stop, e.right)
    ensures Normal(e) ==> Normal(e.left) && Normal(e.right)
    ensures LevelOf(e) < PRIMARY && Chains(LevelOf(e)) && e == Binary(e.bop, e.left, e.right)
  {
  }

  lemma {:induction false} LoopHere(stop: bool, e: Tree, rest: Tokens)
    requires e.Binary? && Loops(LevelOf(e)) && Normal(e) && !Exposed(stop, e)
    requires Clear(LevelOf(e) + 1, stop, First(rest)) && Joint(Print(stop, e), rest)
    ensures Parse(LevelOf(e), stop, Print(stop, e) + rest) == Tail(LevelOf(e), stop, e, rest)
    decreases e, 0
  {
    hide Parse, Tail, Print, PrintAt, Normal, Clear, OpOf, Joint, StartsExpression, UnaryOpOf;
    var level, t := LevelOf(e), Sym(SymbolOf(e.bop));
    var l, r := PrintAt(level, stop, e.left), PrintAt(level + 1, stop, e.right);
    var after := [t] + (r + rest);
    BeginsAt(level + 1, stop, e.right);
    Around(l, t, r, rest);
    JointEnd(l + [t], r, rest);
    LoopPrinted(stop, e);
    OperatorOf(stop, e);
    LoopOperands(level, stop, e.left, after, e.right, r, rest);
    LoopTail(level, stop, e.left, after, e.bop, e.right, rest);
  }

  /** The printed operator is read as that operator, and by no rule further in. */
  lemma OperatorOf(stop: bool, e: Tree)
    requires e.Binary? && Loops(LevelOf(e)) && !Exposed(stop, e)
    ensures
      var t := Sym(SymbolOf(e.bop));
      OpOf(LevelOf(e), stop, t) == Some(e.bop) && Clear(LevelOf(e) + 1, stop, t)
        && t != Sym(LPAREN) && t != Sym(LBRACKET)
  {
  }

  lemma {:induction false} ConcatHere(stop: bool, e: Tree, rest: Tokens)
    requires e.Binary? && e.bop == ConcatOp && Normal(e) && Clear(ADDITIVE, stop, First(rest))
      && Joint(Print(stop, e), rest)
    ensures Parse(CONCAT, stop, Print(stop, e) + rest) == Tail(CONCAT, stop, e, rest)
    decreases e, 0
  {
    hide Parse, Tail, Print, PrintAt, Normal, Clear, RightPart, OpOf;
    var right := RightPart(stop, e.right);
    var left := LeftPart(stop, e.left, right);
    var after := right + rest;
    ConcatPrinted(stop, e, rest);
    RightReads(stop, e.right, rest);
    assert First(after) == right[0];
    if left == PrintAt(CONCAT, stop, e.left) {
      Chain(CONCAT, stop, e.left, after);
    } else {
      GroupedReads(ADDITIVE, stop, e.left, after);
      Onward(CONCAT, stop, left + after, e.left, after);
    }
    ConcatTail(stop, e.left, after, e.right, rest);
  }

  lemma ConcatPrinted(stop: bool, e: Tree, rest: Tokens)
    requires e.Binary? && e.bop == ConcatOp
    ensures
      var right := RightPart(stop, e.right);
      && Print(stop, e) == LeftPart(stop, e.left, right) + right
      && Print(stop, e) + rest == LeftPart(stop, e.left, right) + (right + rest)
      && (right != [] ==> Joint(Print(stop, e), rest) == Joint(right, rest))
    ensures (Normal(e) ==> Normal(e.left) && Normal(e.right)) && e == Binary(ConcatOp, e.left, e.right)
  {
    hide LeftPart, RightPart, PrintAt;
  }

  lemma ConcatTail(stop: bool, left: Tree, ts: Tokens, right: Tree, rest: Tokens)
    requires StartsExpression(First(ts)) && Reads(ADDITIVE, stop, ts, right, rest)
    ensures Tail(CONCAT, stop, left, ts) == Tail(CONCAT, stop, Binary(ConcatOp, left, right), rest)
  {
    hide Parse, StartsExpression;
  }

  /** The right operand of a concatenation, which begins with nothing an operator is made of. */
  lemma {:induction false} RightReads(stop: bool, r: Tree, rest: Tokens)
    requires Normal(r) && Clear(ADDITIVE, stop, First(rest)) && Joint(RightPart(stop, r), rest)
    ensures
      var right := RightPart(stop, r);
      && right != [] && StartsExpression(right[0]) && Clear(ADDITIVE, stop, right[0])
      && Reads(ADDITIVE, stop, right + rest, r, rest)
    decreases r, 6
  {
    hide Parse, Tail, Print, PrintAt, Normal, Clear, Clings, StartsExpression, Joint, Grouped;
    BeginsAt(ADDITIVE, stop, r);
    GroupBegins(Print(false, r));
    StartsClear(stop, PrintAt(ADDITIVE, stop, r)[0]);
    StartsClear(stop, Grouped(Print(false, r))[0]);
    if RightPart(stop, r) == PrintAt(ADDITIVE, stop, r) {
      PrintedReads(ADDITIVE, stop, r, rest);
    } else {
      GroupedReads(ADDITIVE, stop, r, rest);
    }
  }

  /** What begins an operand and does not cling to the one before it is no operator. */
  lemma StartsClear(stop: bool, t: Token)
    requires StartsExpression(t)
    ensures !Clings(t) ==> Clear(ADDITIVE, stop, t)
  {
  }

  // ----- Every tree the parser makes -----

  /** What the parser returns is a normal tree, so printing and parsing it again gives it back. */
  lemma {:induction false} ParseIsNormal(level: nat, stop: bool, ts: Tokens)
    requires level <= PRIMARY && Parse(level, stop, ts).Some?
    ensures Normal(Parse(level, stop, ts).value.tree)
    decreases |ts|, 20 - level
  {
    hide Tail, Primary, Normal;
    if level == PRIMARY {
      PrimaryIsNormal(ts);
    } else if level == UNARY && UnaryOpOf(First(ts)).Some? {
      ParseIsNormal(UNARY, stop, ts[1..]);
      UnaryIsNormal(UnaryOpOf(First(ts)).value, Parse(UNARY, stop, ts[1..]).value.tree);
    } else {
      var inner := Parse(level + 1, stop, ts).value;
      ParseIsNormal(level + 1, stop, ts);
      TailIsNormal(level, stop, inner.tree, inner.rest);
    }
  }

  lemma UnaryIsNormal(op: UnaryOp, e: Tree)
    requires Normal(e)
    ensures Normal(Unary(op, e)) && forall p: PostfixOp :: Normal(Postfix(p, e))
  {
  }

  lemma BinaryIsNormal(op: BinaryOp, l: Tree, r: Tree)
    requires Normal(l) && Normal(r)
    ensures Normal(Binary(op, l, r)) && forall c :: Normal(c) ==> Normal(Ternary(c, l, r))
    ensures IsLvalue(l) ==> forall a: AssignmentOp :: Normal(Assignment(l, a, r))
  {
  }

  lemma {:induction false} TailIsNormal(level: nat, stop: bool, e: Tree, ts: Tokens)
    requires level < PRIMARY && Normal(e) && Tail(level, stop, e, ts).Some?
    ensures Normal(Tail(level, stop, e, ts).value.tree)
    decreases |ts|, 30
  {
    hide Parse, Normal, OpOf, StartsExpression, AssignmentOpOf, PostfixOpOf, IsLvalue;
    NothingThere(level, stop);
    if level == ASSIGN || level == CONDITIONAL {
      OuterTailIsNormal(level, stop, e, ts);
    } else if Loops(level) || level == CONCAT {
      ChainTailIsNormal(level, stop, e, ts);
    } else if level == MEMBERSHIP && First(ts) == Sym(IN) {
      ParseIsNormal(CONCAT, stop, ts[1..]);
      BinaryIsNormal(InOp, e, Parse(CONCAT, stop, ts[1..]).value.tree);
    } else if level == POWER && First(ts) == Sym(CARET) {
      ParseIsNormal(POWER, stop, ts[1..]);
      BinaryIsNormal(PowOp, e, Parse(POWER, stop, ts[1..]).value.tree);
    } else {
      UnaryIsNormal(PlusOp, e);
    }
  }

  lemma NothingThere(level: nat, stop: bool)
    ensures OpOf(level, stop, First([])).None? && AssignmentOpOf(First([])).None? && !StartsExpression(First([]))
      && PostfixOpOf(First([])).None?
  {
  }

  /** The rules of assignment and of the ternary. */
  lemma {:induction false} OuterTailIsNormal(level: nat, stop: bool, e: Tree, ts: Tokens)
    requires (level == ASSIGN || level == CONDITIONAL) && Normal(e) && Tail(level, stop, e, ts).Some?
    ensures Normal(Tail(level, stop, e, ts).value.tree)
    decreases |ts|, 29
  {
    hide Parse, Normal, AssignmentOpOf, IsLvalue;
    NothingThere(level, stop);
    if level == ASSIGN && AssignmentOpOf(First(ts)).Some? {
      ParseIsNormal(ASSIGN, false, ts[1..]);
      BinaryIsNormal(OrOp, e, Parse(ASSIGN, false, ts[1..]).value.tree);
    } else if level == CONDITIONAL && First(ts) == Sym(QUESTION) {
      var yes := Parse(ASSIGN, false, ts[1..]).value;
      ParseIsNormal(ASSIGN, false, ts[1..]);
      ParseIsNormal(CONDITIONAL, false, yes.rest[1..]);
      BinaryIsNormal(OrOp, yes.tree, Parse(CONDITIONAL, false, yes.rest[1..]).value.tree);
    }
  }

  /** The rules that go on in a loop. */
  lemma {:induction false} ChainTailIsNormal(level: nat, stop: bool, e: Tree, ts: Tokens)
    requires (Loops(level) || level == CONCAT) && Normal(e) && Tail(level, stop, e, ts).Some?
    ensures Normal(Tail(level, stop, e, ts).value.tree)
    decreases |ts|, 29
  {
    hide Parse, Normal, OpOf, StartsExpression;
    NothingThere(level, stop);
    if Loops(level) && OpOf(level, stop, First(ts)).Some? {
      var right, op := Parse(level + 1, stop, ts[1..]).value, OpOf(level, stop, First(ts)).value;
      ParseIsNormal(level + 1, stop, ts[1..]);
      BinaryIsNormal(op, e, right.tree);
      TailIsNormal(level, stop, Binary(op, e, right.tree), right.rest);
    } else if level == CONCAT && StartsExpression(First(ts)) {
      var right := Parse(ADDITIVE, stop, ts).value;
      ParseIsNormal(ADDITIVE, stop, ts);
      BinaryIsNormal(ConcatOp, e, right.tree);
      TailIsNormal(CONCAT, stop, Binary(ConcatOp, e, right.tree), right.rest);
    }
  }

  lemma {:induction false} PrimaryIsNormal(ts: Tokens)
    requires Primary(ts).Some?
    ensures Normal(Primary(ts).value.tree)
    decreases |ts|, 0
  {
    hide Parse, ParseList, IntegerOf;
    match First(ts)
    case Ident(name) =>
      if First(ts[1..]) == Sym(LPAREN) {
        if First(ts[2..]) != Sym(RPAREN) { ListIsNormal(ts[2..]); }
      } else if First(ts[1..]) == Sym(LBRACKET) {
        ListIsNormal(ts[2..]);
      }
    case Sym(DOLLAR) => ParseIsNormal(UNARY, false, ts[1..]);
    case Sym(LPAREN) => ParseIsNormal(ASSIGN, false, ts[1..]);
    case _ =>
  }

  lemma {:induction false} ListIsNormal(ts: Tokens)
    requires ParseList(ts).Some?
    ensures ParseList(ts).value.trees != [] && forall e :: e in ParseList(ts).value.trees ==> Normal(e)
    decreases |ts|, 31
  {
    hide Parse, Normal;
    ParseIsNormal(ASSIGN, false, ts);
    var first := Parse(ASSIGN, false, ts).value;
    if First(first.rest) == Sym(COMMA) { ListIsNormal(first.rest[1..]); }
  }

  /** Parsing, printing and parsing again is parsing once: for every text of tokens the parser
      accepts, in front of any token that cannot continue an expression. */
  lemma ReprintedReads(level: nat, stop: bool, ts: Tokens, rest: Tokens)
    requires level <= PRIMARY && Parse(level, stop, ts).Some?
    requires
      var e := Parse(level, stop, ts).value.tree;
      Clear(level, stop, First(rest)) && Joint(PrintAt(level, stop, e), rest)
    ensures
      var e := Parse(level, stop, ts).value.tree;
      Parse(level, stop, PrintAt(level, stop, e) + rest) == Some(Parsed(e, rest))
  {
    hide Parse, PrintAt, Normal, Clear;
    ParseIsNormal(level, stop, ts);
    PrintedReads(level, stop, Parse(level, stop, ts).value.tree, rest);
  }
}

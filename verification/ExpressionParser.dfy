/** The expression parser as the program runs it: an index into the tokens, moved by one method a
    level, with a loop where operators group to the left. Each method is proved to return the tree
    its level's rule defines and to stop where the rule does. */
module ExpressionParser {
  import opened Options
  import opened ExpressionGrammar
  import opened ExpressionRoundTrip

  /** A level reads an operand first. */
  lemma Operand(level: nat, stop: bool, ts: Tokens)
    requires level < PRIMARY && (level == UNARY ==> UnaryOpOf(First(ts)).None?)
    ensures
      var inner := Parse(level + 1, stop, ts);
      Parse(level, stop, ts) == if inner.None? then None else Tail(level, stop, inner.value.tree, inner.value.rest)
  {
    hide Tail, Primary;
  }

  lemma Loop(level: nat, stop: bool, e: Tree, ts: Tokens)
    requires Loops(level)
    ensures OpOf(level, stop, First(ts)).None? ==> Tail(level, stop, e, ts) == Some(Parsed(e, ts))
    ensures OpOf(level, stop, First(ts)).Some? ==> ts != [] && First(ts) != EOF
    ensures OpOf(level, stop, First(ts)).Some? ==>
      var right := Parse(level + 1, stop, ts[1..]);
      Tail(level, stop, e, ts) ==
        if right.None? then None
        else Tail(level, stop, Binary(OpOf(level, stop, First(ts)).value, e, right.value.tree), right.value.rest)
  {
    hide Parse, OpOf, StartsExpression, AssignmentOpOf, PostfixOpOf;
    NoOperatorAtEnd(level, stop);
  }

  lemma NoOperatorAtEnd(level: nat, stop: bool)
    ensures OpOf(level, stop, EOF).None?
  {
  }

  /** A level that reads operands without an operator token, or at most one operator. */
  lemma AfterOperand(level: nat, stop: bool, e: Tree, ts: Tokens)
    requires level == CONCAT || level == MEMBERSHIP || level == POWER || level == POSTFIX
    ensures level == CONCAT && !StartsExpression(First(ts)) ==> Tail(level, stop, e, ts) == Some(Parsed(e, ts))
    ensures level == CONCAT && StartsExpression(First(ts)) ==>
      var right := Parse(ADDITIVE, stop, ts);
      Tail(level, stop, e, ts) ==
        if right.None? then None else Tail(CONCAT, stop, Binary(ConcatOp, e, right.value.tree), right.value.rest)
    ensures level == MEMBERSHIP && First(ts) != Sym(IN) ==> Tail(level, stop, e, ts) == Some(Parsed(e, ts))
    ensures level == MEMBERSHIP && First(ts) == Sym(IN) ==>
      var right := Parse(CONCAT, stop, ts[1..]);
      Tail(level, stop, e, ts) == if right.None? then None
        else Some(Parsed(Binary(InOp, e, right.value.tree), right.value.rest))
    ensures level == POWER && First(ts) != Sym(CARET) ==> Tail(level, stop, e, ts) == Some(Parsed(e, ts))
    ensures level == POWER && First(ts) == Sym(CARET) ==>
      var right := Parse(POWER, stop, ts[1..]);
      Tail(level, stop, e, ts) == if right.None? then None
        else Some(Parsed(Binary(PowOp, e, right.value.tree), right.value.rest))
    ensures level == POSTFIX && PostfixOpOf(First(ts)).None? ==> Tail(level, stop, e, ts) == Some(Parsed(e, ts))
    ensures level == POSTFIX && PostfixOpOf(First(ts)).Some? ==>
      Tail(level, stop, e, ts) == Some(Parsed(Postfix(PostfixOpOf(First(ts)).value, e), ts[1..]))
  {
    hide Parse, StartsExpression;
  }

  lemma Outermost(level: nat, stop: bool, e: Tree, ts: Tokens)
    requires level == ASSIGN || level == CONDITIONAL
    ensures level == ASSIGN && AssignmentOpOf(First(ts)).None? ==> Tail(level, stop, e, ts) == Some(Parsed(e, ts))
    ensures level == ASSIGN && AssignmentOpOf(First(ts)).Some? ==>
      var value := Parse(ASSIGN, false, ts[1..]);
      Tail(level, stop, e, ts) ==
        if !IsLvalue(e) || value.None? then None
        else Some(Parsed(Assignment(e, AssignmentOpOf(First(ts)).value, value.value.tree), value.value.rest))
    ensures level == CONDITIONAL && First(ts) != Sym(QUESTION) ==> Tail(level, stop, e, ts) == Some(Parsed(e, ts))
    ensures level == CONDITIONAL && First(ts) == Sym(QUESTION) ==>
      var yes := Parse(ASSIGN, false, ts[1..]);
      Tail(level, stop, e, ts) ==
        if yes.None? || First(yes.value.rest) != Sym(COLON) then None else
        var no := Parse(CONDITIONAL, false, yes.value.rest[1..]);
        if no.None? then None else Some(Parsed(Ternary(e, yes.value.tree, no.value.tree), no.value.rest))
  {
    hide Parse;
  }

  lemma PrimaryLevel(stop: bool, ts: Tokens)
    ensures Parse(PRIMARY, stop, ts) == Primary(ts)
  {
    hide Tail, Primary;
  }

  /** A list of which some expressions have been read. */
  function Continued(es: seq<Tree>, ts: Tokens): Option<ParsedList>
    decreases |ts|
  {
    if First(ts) != Sym(COMMA) then Some(ParsedList(es, ts)) else
    var next := Parse(ASSIGN, false, ts[1..]);
    if next.None? then None else Continued(es + [next.value.tree], next.value.rest)
  }

  lemma {:induction false} ContinuedMeans(es: seq<Tree>, ts: Tokens)
    ensures Continued(es, ts) ==
      if First(ts) != Sym(COMMA) then Some(ParsedList(es, ts)) else
      var more := ParseList(ts[1..]);
      if more.None? then None else Some(ParsedList(es + more.value.trees, more.value.rest))
    decreases |ts|
  {
    hide Parse;
    if First(ts) == Sym(COMMA) && Parse(ASSIGN, false, ts[1..]).Some? {
      var next := Parse(ASSIGN, false, ts[1..]).value;
      ContinuedMeans(es + [next.tree], next.rest);
      if First(next.rest) == Sym(COMMA) && ParseList(next.rest[1..]).Some? {
        var more := ParseList(next.rest[1..]).value.trees;
        assert (es + [next.tree]) + more == es + ([next.tree] + more);
      }
    }
  }

  lemma ListStarts(ts: Tokens)
    ensures ParseList(ts) ==
      var first := Parse(ASSIGN, false, ts);
      if first.None? then None else Continued([first.value.tree], first.value.rest)
  {
    hide Parse;
    var first := Parse(ASSIGN, false, ts);
    if first.Some? { ContinuedMeans([first.value.tree], first.value.rest); }
  }

  class Parser {
    const tokens: Tokens
    var index: nat

    constructor (tokens: Tokens)
      requires tokens != [] && tokens[|tokens| - 1] == EOF
      ensures Valid() && this.tokens == tokens && Rest() == tokens
    {
      this.tokens := tokens;
      index := 0;
    }

    /** The tokens end in an end-of-file token, which is never passed. */
    ghost predicate Valid()
      reads this
    {
      index < |tokens| && tokens[|tokens| - 1] == EOF
    }

    ghost function Rest(): Tokens
      requires Valid()
      reads this
    {
      tokens[index..]
    }

    /** The method's result and where it stopped are the rule's. */
    ghost predicate Returns(r: Option<Tree>, expected: Option<Parsed>)
      requires Valid()
      reads this
    {
      if r.None? then expected.None? else expected == Some(Parsed(r.value, Rest()))
    }

    function Current(): (t: Token)
      requires Valid()
      reads this
      ensures t == First(Rest())
    {
      tokens[index]
    }

    /** The kind of the next token. */
    function Peek(): (t: Token)
      requires Valid() && Current() != EOF
      reads this
      ensures t == First(Rest()[1..])
    {
      tokens[index + 1]
    }

    method Advance()
      requires Valid() && Current() != EOF
      modifies this`index
      ensures Valid() && Rest() == old(Rest())[1..] && index == old(index) + 1
    {
      index := index + 1;
    }

    /** Pass the symbol, or report an error. */
    method Expect(s: Symbol) returns (ok: bool)
      requires Valid()
      modifies this`index
      ensures Valid() && ok == (First(old(Rest())) == Sym(s))
      ensures ok ==> Rest() == old(Rest())[1..] && index == old(index) + 1
      ensures !ok ==> index == old(index)
    {
      ok := Current() == Sym(s);
      if ok {
        Advance();
      }
    }

    method ParseExpression(stop: bool) returns (r: Option<Tree>)
      requires Valid()
      modifies this`index
      ensures Valid() && Returns(r, Parse(ASSIGN, stop, old(Rest())))
      decreases |tokens| - index, 21
    {
      r := ParseAssignment(stop);
    }

    method ParseAssignment(stop: bool) returns (r: Option<Tree>)
      requires Valid()
      modifies this`index
      ensures Valid() && Returns(r, Parse(ASSIGN, stop, old(Rest())))
      decreases |tokens| - index, 20 - ASSIGN
    {
      hide Parse, Tail;
      Operand(ASSIGN, stop, Rest());
      r := ParseConditional(stop);
      if r.None? {
        return;
      }
      Outermost(ASSIGN, stop, r.value, Rest());
      var op := AssignmentOpOf(Current());
      if op.Some? {
        if !IsLvalue(r.value) {
          return None;
        }
        Advance();
        var value := ParseAssignment(false);
        r := if value.None? then None else Some(Assignment(r.value, op.value, value.value));
      }
    }

    method ParseConditional(stop: bool) returns (r: Option<Tree>)
      requires Valid()
      modifies this`index
      ensures Valid() && Returns(r, Parse(CONDITIONAL, stop, old(Rest())))
      decreases |tokens| - index, 20 - CONDITIONAL
    {
      hide Parse, Tail;
      Operand(CONDITIONAL, stop, Rest());
      r := ParseLogicalOr(stop);
      if r.None? {
        return;
      }
      Outermost(CONDITIONAL, stop, r.value, Rest());
      if Current() != Sym(QUESTION) {
        return;
      }
      Advance();
      var yes := ParseExpression(false);
      if yes.None? {
        return None;
      }
      var ok := Expect(COLON);
      if !ok {
        return None;
      }
      var no := ParseConditional(false);
      r := if no.None? then None else Some(Ternary(r.value, yes.value, no.value));
    }

    method ParseLogicalOr(stop: bool) returns (r: Option<Tree>)
      requires Valid()
      modifies this`index
      ensures Valid() && Returns(r, Parse(OR, stop, old(Rest())))
      decreases |tokens| - index, 20 - OR
    {
      hide Parse, Tail, OpOf;
      ghost var ts := Rest();
      Operand(OR, stop, ts);
      r := ParseLogicalAnd(stop);
      if r.None? {
        return;
      }
      while true
        invariant Valid() && r.Some? && |Rest()| < |ts|
        invariant Parse(OR, stop, ts) == Tail(OR, stop, r.value, Rest())
        decreases |tokens| - index
      {
        Loop(OR, stop, r.value, Rest());
        var op := OpOf(OR, stop, Current());
        if op.None? {
          return;
        }
        Advance();
        var right := ParseLogicalAnd(stop);
        if right.None? {
          return None;
        }
        r := Some(Binary(op.value, r.value, right.value));
      }
    }

    method ParseLogicalAnd(stop: bool) returns (r: Option<Tree>)
      requires Valid()
      modifies this`index
      ensures Valid() && Returns(r, Parse(AND, stop, old(Rest())))
      decreases |tokens| - index, 20 - AND
    {
      hide Parse, Tail, OpOf;
      ghost var ts := Rest();
      Operand(AND, stop, ts);
      r := ParseComparison(stop);
      if r.None? {
        return;
      }
      while true
        invariant Valid() && r.Some? && |Rest()| < |ts|
        invariant Parse(AND, stop, ts) == Tail(AND, stop, r.value, Rest())
        decreases |tokens| - index
      {
        Loop(AND, stop, r.value, Rest());
        var op := OpOf(AND, stop, Current());
        if op.None? {
          return;
        }
        Advance();
        var right := ParseComparison(stop);
        if right.None? {
          return None;
        }
        r := Some(Binary(op.value, r.value, right.value));
      }
    }

    method ParseComparison(stop: bool) returns (r: Option<Tree>)
      requires Valid()
      modifies this`index
      ensures Valid() && Returns(r, Parse(COMPARISON, stop, old(Rest())))
      decreases |tokens| - index, 20 - COMPARISON
    {
      hide Parse, Tail, OpOf;
      ghost var ts := Rest();
      Operand(COMPARISON, stop, ts);
      r := ParseMatch(stop);
      if r.None? {
        return;
      }
      while true
        invariant Valid() && r.Some? && |Rest()| < |ts|
        invariant Parse(COMPARISON, stop, ts) == Tail(COMPARISON, stop, r.value, Rest())
        decreases |tokens| - index
      {
        Loop(COMPARISON, stop, r.value, Rest());
        var op := OpOf(COMPARISON, stop, Current());
        if op.None? {
          return;
        }
        Advance();
        var right := ParseMatch(stop);
        if right.None? {
          return None;
        }
        r := Some(Binary(op.value, r.value, right.value));
      }
    }

    method ParseMatch(stop: bool) returns (r: Option<Tree>)
      requires Valid()
      modifies this`index
      ensures Valid() && Returns(r, Parse(MATCHING, stop, old(Rest())))
      decreases |tokens| - index, 20 - MATCHING
    {
      hide Parse, Tail, OpOf;
      ghost var ts := Rest();
      Operand(MATCHING, stop, ts);
      r := ParseIn(stop);
      if r.None? {
        return;
      }
      while true
        invariant Valid() && r.Some? && |Rest()| < |ts|
        invariant Parse(MATCHING, stop, ts) == Tail(MATCHING, stop, r.value, Rest())
        decreases |tokens| - index
      {
        Loop(MATCHING, stop, r.value, Rest());
        var op := OpOf(MATCHING, stop, Current());
        if op.None? {
          return;
        }
        Advance();
        var right := ParseIn(stop);
        if right.None? {
          return None;
        }
        r := Some(Binary(op.value, r.value, right.value));
      }
    }

    method ParseIn(stop: bool) returns (r: Option<Tree>)
      requires Valid()
      modifies this`index
      ensures Valid() && Returns(r, Parse(MEMBERSHIP, stop, old(Rest())))
      decreases |tokens| - index, 20 - MEMBERSHIP
    {
      hide Parse, Tail;
      Operand(MEMBERSHIP, stop, Rest());
      r := ParseConcat(stop);
      if r.None? {
        return;
      }
      AfterOperand(MEMBERSHIP, stop, r.value, Rest());
      if Current() != Sym(IN) {
        return;
      }
      Advance();
      var right := ParseConcat(stop);
      r := if right.None? then None else Some(Binary(InOp, r.value, right.value));
    }

    /** Concatenation has no operator: another operand begins where one can begin. */
    method ParseConcat(stop: bool) returns (r: Option<Tree>)
      requires Valid()
      modifies this`index
      ensures Valid() && Returns(r, Parse(CONCAT, stop, old(Rest())))
      decreases |tokens| - index, 20 - CONCAT
    {
      hide Parse, Tail;
      ghost var ts := Rest();
      Operand(CONCAT, stop, ts);
      r := ParseAdditive(stop);
      if r.None? {
        return;
      }
      while true
        invariant Valid() && r.Some? && |Rest()| < |ts|
        invariant Parse(CONCAT, stop, ts) == Tail(CONCAT, stop, r.value, Rest())
        decreases |tokens| - index
      {
        AfterOperand(CONCAT, stop, r.value, Rest());
        if !StartsExpression(Current()) {
          return;
        }
        var right := ParseAdditive(stop);
        if right.None? {
          return None;
        }
        r := Some(Binary(ConcatOp, r.value, right.value));
      }
    }

    method ParseAdditive(stop: bool) returns (r: Option<Tree>)
      requires Valid()
      modifies this`index
      ensures Valid() && Returns(r, Parse(ADDITIVE, stop, old(Rest())))
      decreases |tokens| - index, 20 - ADDITIVE
    {
      hide Parse, Tail, OpOf;
      ghost var ts := Rest();
      Operand(ADDITIVE, stop, ts);
      r := ParseMultiplicative(stop);
      if r.None? {
        return;
      }
      while true
        invariant Valid() && r.Some? && |Rest()| < |ts|
        invariant Parse(ADDITIVE, stop, ts) == Tail(ADDITIVE, stop, r.value, Rest())
        decreases |tokens| - index
      {
        Loop(ADDITIVE, stop, r.value, Rest());
        var op := OpOf(ADDITIVE, stop, Current());
        if op.None? {
          return;
        }
        Advance();
        var right := ParseMultiplicative(stop);
        if right.None? {
          return None;
        }
        r := Some(Binary(op.value, r.value, right.value));
      }
    }

    method ParseMultiplicative(stop: bool) returns (r: Option<Tree>)
      requires Valid()
      modifies this`index
      ensures Valid() && Returns(r, Parse(MULTIPLICATIVE, stop, old(Rest())))
      decreases |tokens| - index, 20 - MULTIPLICATIVE
    {
      hide Parse, Tail, OpOf;
      ghost var ts := Rest();
      Operand(MULTIPLICATIVE, stop, ts);
      r := ParsePower(stop);
      if r.None? {
        return;
      }
      while true
        invariant Valid() && r.Some? && |Rest()| < |ts|
        invariant Parse(MULTIPLICATIVE, stop, ts) == Tail(MULTIPLICATIVE, stop, r.value, Rest())
        decreases |tokens| - index
      {
        Loop(MULTIPLICATIVE, stop, r.value, Rest());
        var op := OpOf(MULTIPLICATIVE, stop, Current());
        if op.None? {
          return;
        }
        Advance();
        var right := ParsePower(stop);
        if right.None? {
          return None;
        }
        r := Some(Binary(op.value, r.value, right.value));
      }
    }

    method ParsePower(stop: bool) returns (r: Option<Tree>)
      requires Valid()
      modifies this`index
      ensures Valid() && Returns(r, Parse(POWER, stop, old(Rest())))
      decreases |tokens| - index, 20 - POWER
    {
      hide Parse, Tail;
      Operand(POWER, stop, Rest());
      r := ParseUnary(stop);
      if r.None? {
        return;
      }
      AfterOperand(POWER, stop, r.value, Rest());
      if Current() != Sym(CARET) {
        return;
      }
      Advance();
      var right := ParsePower(stop);
      r := if right.None? then None else Some(Binary(PowOp, r.value, right.value));
    }

    method ParseUnary(stop: bool) returns (r: Option<Tree>)
      requires Valid()
      modifies this`index
      ensures Valid() && Returns(r, Parse(UNARY, stop, old(Rest())))
      decreases |tokens| - index, 20 - UNARY
    {
      var op := UnaryOpOf(Current());
      if op.Some? {
        hide Tail, Primary;
        Advance();
        var operand := ParseUnary(stop);
        r := if operand.None? then None else Some(Unary(op.value, operand.value));
      } else {
        Operand(UNARY, stop, Rest());
        hide Parse, Primary;
        r := ParsePostfix(stop);
      }
    }

    method ParsePostfix(stop: bool) returns (r: Option<Tree>)
      requires Valid()
      modifies this`index
      ensures Valid() && Returns(r, Parse(POSTFIX, stop, old(Rest())))
      decreases |tokens| - index, 20 - POSTFIX
    {
      Operand(POSTFIX, stop, Rest());
      PrimaryLevel(stop, Rest());
      hide Parse, Tail, Primary;
      r := ParsePrimary();
      if r.None? {
        return;
      }
      AfterOperand(POSTFIX, stop, r.value, Rest());
      var op := PostfixOpOf(Current());
      if op.Some? {
        Advance();
        r := Some(Postfix(op.value, r.value));
      }
    }

    method ParsePrimary() returns (r: Option<Tree>)
      requires Valid()
      modifies this`index
      ensures Valid() && Returns(r, Primary(old(Rest())))
      decreases |tokens| - index, 1
    {
      hide Parse, ParseList, IntegerOf;
      match Current() {
        case Str(raw) =>
          Advance();
          r := Some(StringLit(raw));
        case Num(text) =>
          Advance();
          r := Some(NumberLit(text));
        case Regex(raw) =>
          Advance();
          r := Some(RegexLit(raw));
        case Ident(name) => r := ParseName(name);
        case Sym(DOLLAR) =>
          Advance();
          var index := ParseUnary(false);
          if index.None? {
            return None;
          }
          if index.value.NumberLit? && '.' !in index.value.text {
            var n := IntegerOf(index.value.text);
            r := if n.None? then None else Some(FixedField(n.value));
          } else {
            r := Some(Field(index.value));
          }
        case Sym(LPAREN) =>
          Advance();
          r := ParseExpression(false);
          if r.None? {
            return;
          }
          var ok := Expect(RPAREN);
          if !ok {
            return None;
          }
        case _ => r := None;
      }
    }

    /** A name: a call, an array element or a variable. */
    method ParseName(name: string) returns (r: Option<Tree>)
      requires Valid() && Current() == Ident(name)
      modifies this`index
      ensures Valid() && Returns(r, Primary(old(Rest())))
      decreases |tokens| - index, 0
    {
      hide Parse, ParseList;
      ghost var ts := Rest();
      if name == "getline" {
        return None;
      }
      if Peek() == Sym(LPAREN) {
        Advance();
        Advance();
        assert Rest() == ts[2..];
        if Current() == Sym(RPAREN) {
          Advance();
          assert Rest() == ts[3..];
          return Some(Call(name, []));
        }
        var args := ParseExpressionList();
        if args.None? {
          return None;
        }
        var ok := Expect(RPAREN);
        r := if ok then Some(Call(name, args.value)) else None;
      } else if Peek() == Sym(LBRACKET) {
        Advance();
        Advance();
        assert Rest() == ts[2..];
        var subscripts := ParseExpressionList();
        if subscripts.None? {
          return None;
        }
        var ok := Expect(RBRACKET);
        r := if ok then Some(Element(name, subscripts.value)) else None;
      } else {
        Advance();
        r := if name == "length" then Some(Call("length", [])) else Some(Variable(name));
      }
    }

    method ParseExpressionList() returns (r: Option<seq<Tree>>)
      requires Valid()
      modifies this`index
      ensures Valid()
      ensures r.None? ==> ParseList(old(Rest())).None?
      ensures r.Some? ==> ParseList(old(Rest())) == Some(ParsedList(r.value, Rest()))
      decreases |tokens| - index, 31
    {
      hide Parse, ParseList;
      ghost var ts := Rest();
      ListStarts(ts);
      var first := ParseExpression(false);
      if first.None? {
        return None;
      }
      var es := [first.value];
      while Current() == Sym(COMMA)
        invariant Valid() && es != [] && |Rest()| < |ts|
        invariant ParseList(ts) == Continued(es, Rest())
        decreases |tokens| - index
      {
        Advance();
        var next := ParseExpression(false);
        if next.None? {
          return None;
        }
        es := es + [next.value];
      }
      r := Some(es);
    }
  }
}

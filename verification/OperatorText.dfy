/** The operators as they are written: for each text the operator it stands for, from the characters
    through scanner and parser to the tree. */
module OperatorText {
  import opened Options
  import opened CStrings
  import opened ExpressionGrammar
  import opened ExpressionPrecedence
  import E = ExpressionText
  import L = Lexing

  // ----- The table -----

  function BinaryNamed(w: string): Option<BinaryOp> {
    match w
    case "||" => Some(OrOp)
    case "&&" => Some(AndOp)
    case "<" => Some(LessOp)
    case "<=" => Some(LessEqualOp)
    case ">" => Some(GreaterOp)
    case ">=" => Some(GreaterEqualOp)
    case "==" => Some(EqualOp)
    case "!=" => Some(NotEqualOp)
    case "~" => Some(MatchOp)
    case "!~" => Some(NotMatchOp)
    case "in" => Some(InOp)
    case "+" => Some(AddOp)
    case "-" => Some(SubOp)
    case "*" => Some(MulOp)
    case "/" => Some(DivOp)
    case "%" => Some(ModOp)
    case "^" => Some(PowOp)
    case _ => None
  }

  function StoreNamed(w: string): Option<AssignmentOp> {
    match w
    case "=" => Some(PlainSet)
    case "+=" => Some(AddSet)
    case "-=" => Some(SubSet)
    case "*=" => Some(MulSet)
    case "/=" => Some(DivSet)
    case "%=" => Some(ModSet)
    case "^=" => Some(PowSet)
    case _ => None
  }

  function SignNamed(w: string): Option<UnaryOp> {
    match w
    case "+" => Some(PlusOp)
    case "-" => Some(MinusOp)
    case "!" => Some(NotOp)
    case "++" => Some(PreInc)
    case "--" => Some(PreDec)
    case _ => None
  }

  // ----- Texts of trees -----

  /** The text is scanned and parsed as the tree, which uses it up. */
  ghost predicate ReadsAs(text: string, e: Tree) {
    var tokens := L.Lex(text, true);
    tokens.Some? && Parse(0, false, E.AllSeen(tokens.value)) == Some(Parsed(e, []))
  }

  /** A name that the scanner takes for one, and that stands for a variable. */
  predicate IsName(a: string) {
    E.Spelled(Ident(a)) && Plain(a)
  }

  lemma BareReads(e: Tree, ts: Tokens)
    requires Normal(e) && E.Spellable(e) && Bare(e) == ts
    ensures ReadsAs(L.Spaced(E.AllWritten(ts)), e)
  {
    hide Bare, Normal, E.Spellable, Parse, L.Lex, PrintAt, E.AllSeen;
    BareIsSpelled(e);
    SpelledIsPrinted(1, e);
    E.TextReads(0, false, e);
  }

  lemma BareIsSpelled(e: Tree)
    ensures Spelled(1, e) == Bare(e)
  {
    hide Bare;
  }

  lemma {:induction false} SpacedIsJoined(ts: Tokens, ws: seq<string>)
    requires |ts| == |ws| && forall i :: 0 <= i < |ts| ==> E.Written(ts[i]).text == ws[i]
    ensures L.Spaced(E.AllWritten(ts)) == Join(ws, " ")
    decreases ts
  {
    hide E.Written;
    if |ts| > 1 {
      SpacedIsJoined(ts[1..], ws[1..]);
      assert E.AllWritten(ts)[1..] == E.AllWritten(ts[1..]);
    }
  }

  /** The tokens of a tree, with their texts given, read as the tree. */
  lemma JoinedReads(e: Tree, ts: Tokens, ws: seq<string>)
    requires Normal(e) && E.Spellable(e) && Bare(e) == ts
    requires |ts| == |ws| && forall i :: 0 <= i < |ts| ==> E.Written(ts[i]).text == ws[i]
    ensures ReadsAs(Join(ws, " "), e)
  {
    hide Bare, Normal, E.Spellable, E.Written, E.AllWritten, L.Spaced, Join, ReadsAs;
    SpacedIsJoined(ts, ws);
    BareReads(e, ts);
  }

  // ----- The operators -----

  lemma BinarySymbol(w: string) returns (s: Symbol)
    requires BinaryNamed(w).Some?
    ensures
      var op := BinaryNamed(w).value;
      op != ConcatOp && OperatorTokens(op) == [Sym(s)] && E.Written(Sym(s)).text == w
  {
    s := OperatorTokens(BinaryNamed(w).value)[0].symbol;
  }

  lemma StoreSymbol(w: string)
    requires StoreNamed(w).Some?
    ensures E.Written(StoreToken(StoreNamed(w).value)).text == w
  {
  }

  lemma SignSymbol(w: string)
    requires SignNamed(w).Some?
    ensures E.Written(SignToken(SignNamed(w).value)).text == w
  {
  }

  lemma NameSpellable(a: string)
    requires IsName(a)
    ensures E.Written(Ident(a)).text == a && Normal(Variable(a)) && E.Spellable(Variable(a))
  {
    hide E.Spelled;
  }

  lemma BinaryReads(w: string, a: string, b: string)
    requires BinaryNamed(w).Some? && IsName(a) && IsName(b)
    ensures ReadsAs(Join([a, w, b], " "), Binary(BinaryNamed(w).value, Variable(a), Variable(b)))
  {
    hide IsName, Normal, OperatorTokens, BinaryNamed, E.Spellable, E.Written, L.Spaced, E.AllWritten, Bare, Plain;
    hide ReadsAs, Join;
    var op, x, y := BinaryNamed(w).value, Variable(a), Variable(b);
    var s := BinarySymbol(w);
    NamesPlain(a, b);
    NameSpellable(a);
    NameSpellable(b);
    NoParentheses(op, a, b);
    PairSpellable(op, x, y);
    assert [Ident(a)] + [Sym(s)] + [Ident(b)] == [Ident(a), Sym(s), Ident(b)];
    JoinedReads(Binary(op, x, y), [Ident(a), Sym(s), Ident(b)], [a, w, b]);
  }

  lemma NamesPlain(a: string, b: string)
    requires IsName(a) && IsName(b)
    ensures Plain(a) && Plain(b)
  {
  }

  lemma PairSpellable(op: BinaryOp, l: Tree, r: Tree)
    requires E.Spellable(l) && E.Spellable(r)
    ensures E.Spellable(Binary(op, l, r))
  {
  }

  lemma StoreReads(w: string, a: string, b: string)
    requires StoreNamed(w).Some? && IsName(a) && IsName(b)
    ensures ReadsAs(Join([a, w, b], " "), Assignment(Variable(a), StoreNamed(w).value, Variable(b)))
  {
    hide IsName, OperatorTokens, StoreNamed, E.Written, L.Spaced, E.AllWritten, Plain, StoreToken, ReadsAs, Join;
    var op, x, y := StoreNamed(w).value, Variable(a), Variable(b);
    var t := StoreToken(op);
    StoreSymbol(w);
    NamesPlain(a, b);
    NameSpellable(a);
    NameSpellable(b);
    NameIs(1, b);
    AssignmentSpelled(a, op, y, [Ident(b)]);
    hide Bare, Spelled;
    assert [Ident(a), t] + [Ident(b)] == [Ident(a), t, Ident(b)];
    JoinedReads(Assignment(x, op, y), [Ident(a), t, Ident(b)], [a, w, b]);
  }

  lemma SignReads(w: string, a: string)
    requires SignNamed(w).Some? && IsName(a)
    ensures ReadsAs(Join([w, a], " "), Unary(SignNamed(w).value, Variable(a)))
  {
    hide IsName, SignNamed, E.Written, L.Spaced, E.AllWritten, Plain, SignToken, Bare, ReadsAs, Join;
    var op := SignNamed(w).value;
    SignSymbol(w);
    NamesPlain(a, a);
    NameSpellable(a);
    SignedName(a);
    JoinedReads(Unary(op, Variable(a)), [SignToken(op), Ident(a)], [w, a]);
  }

  /** An operator's text between two names, or a sign in front of one, is read as that operator. */
  lemma OperatorsRead(w: string, a: string, b: string)
    requires IsName(a) && IsName(b)
    ensures BinaryNamed(w).Some? ==>
      ReadsAs(Join([a, w, b], " "), Binary(BinaryNamed(w).value, Variable(a), Variable(b)))
    ensures StoreNamed(w).Some? ==>
      ReadsAs(Join([a, w, b], " "), Assignment(Variable(a), StoreNamed(w).value, Variable(b)))
    ensures SignNamed(w).Some? ==> ReadsAs(Join([w, a], " "), Unary(SignNamed(w).value, Variable(a)))
  {
    hide IsName, BinaryNamed, StoreNamed, SignNamed, ReadsAs;
    if BinaryNamed(w).Some? { BinaryReads(w, a, b); }
    if StoreNamed(w).Some? { StoreReads(w, a, b); }
    if SignNamed(w).Some? { SignReads(w, a); }
  }


  // ----- Everything else that is neither a name nor a literal -----

  /** Fields, increments behind their operand, calls, elements and ternaries. */
  lemma PunctuationRead(a: string, b: string, c: string)
    requires IsName(a) && IsName(b) && IsName(c)
    ensures
      var x, y, z := Variable(a), Variable(b), Variable(c);
      && ReadsAs(Join(["$", a], " "), Field(x))
      && ReadsAs(Join([a, "++"], " "), Postfix(PostInc, x))
      && ReadsAs(Join([a, "--"], " "), Postfix(PostDec, x))
      && ReadsAs(Join([a, "(", b, ",", c, ")"], " "), Call(a, [y, z]))
      && ReadsAs(Join([a, "[", b, ",", c, "]"], " "), Element(a, [y, z]))
      && ReadsAs(Join([a, "?", b, ":", c], " "), Ternary(x, y, z))
  {
    hide IsName, ReadsAs, Join;
    MarksRead(a);
    ListsRead(a, b, c);
    TernaryRead(a, b, c);
  }

  lemma MarksRead(a: string)
    requires IsName(a)
    ensures ReadsAs(Join(["$", a], " "), Field(Variable(a)))
    ensures ReadsAs(Join([a, "++"], " "), Postfix(PostInc, Variable(a)))
    ensures ReadsAs(Join([a, "--"], " "), Postfix(PostDec, Variable(a)))
  {
    hide IsName, Plain, Bare, ReadsAs, Join, E.Spelled;
    NamesPlain(a, a);
    NameSpellable(a);
    SignedName(a);
    var x := Variable(a);
    MarksAre();
    hide E.Written;
    JoinedReads(Field(x), [Sym(DOLLAR), Ident(a)], ["$", a]);
    JoinedReads(Postfix(PostInc, x), [Ident(a), Sym(PLUS_PLUS)], [a, "++"]);
    JoinedReads(Postfix(PostDec, x), [Ident(a), Sym(MINUS_MINUS)], [a, "--"]);
  }

  /** The marks as they are written. */
  lemma MarksAre()
    ensures E.Written(Sym(DOLLAR)).text == "$"
    ensures E.Written(Sym(PLUS_PLUS)).text == "++"
    ensures E.Written(Sym(MINUS_MINUS)).text == "--"
  {
  }

  lemma BracketsAre()
    ensures E.Written(Sym(LPAREN)).text == "("
    ensures E.Written(Sym(RPAREN)).text == ")"
    ensures E.Written(Sym(COMMA)).text == ","
  {
  }

  lemma SquareBracketsAre()
    ensures E.Written(Sym(LBRACKET)).text == "["
    ensures E.Written(Sym(RBRACKET)).text == "]"
  {
  }

  lemma TernaryMarksAre()
    ensures E.Written(Sym(QUESTION)).text == "?"
    ensures E.Written(Sym(COLON)).text == ":"
  {
  }

  lemma ListsRead(a: string, b: string, c: string)
    requires IsName(a) && IsName(b) && IsName(c)
    ensures ReadsAs(Join([a, "(", b, ",", c, ")"], " "), Call(a, [Variable(b), Variable(c)]))
    ensures ReadsAs(Join([a, "[", b, ",", c, "]"], " "), Element(a, [Variable(b), Variable(c)]))
  {
    hide IsName, Bare, ReadsAs, Join, E.Spelled, Normal, E.Spellable, E.Written;
    NameSpellable(a);
    NameSpellable(b);
    NameSpellable(c);
    ListsBare(a, b, c);
    BracketsAre();
    SquareBracketsAre();
    var y, z := Variable(b), Variable(c);
    JoinedReads(Call(a, [y, z]), [Ident(a), Sym(LPAREN), Ident(b), Sym(COMMA), Ident(c), Sym(RPAREN)],
                [a, "(", b, ",", c, ")"]);
    JoinedReads(Element(a, [y, z]), [Ident(a), Sym(LBRACKET), Ident(b), Sym(COMMA), Ident(c), Sym(RBRACKET)],
                [a, "[", b, ",", c, "]"]);
  }

  lemma TernaryRead(a: string, b: string, c: string)
    requires IsName(a) && IsName(b) && IsName(c)
    ensures ReadsAs(Join([a, "?", b, ":", c], " "), Ternary(Variable(a), Variable(b), Variable(c)))
  {
    hide IsName, Bare, ReadsAs, Join, E.Spelled, Normal, E.Spellable, E.Written;
    NameSpellable(a);
    NameSpellable(b);
    NameSpellable(c);
    TernaryBare(a, b, c);
    TernaryMarksAre();
    JoinedReads(Ternary(Variable(a), Variable(b), Variable(c)),
                [Ident(a), Sym(QUESTION), Ident(b), Sym(COLON), Ident(c)], [a, "?", b, ":", c]);
  }

  lemma ListsBare(a: string, b: string, c: string)
    requires IsName(a) && IsName(b) && IsName(c)
    ensures
      var y, z := Variable(b), Variable(c);
      && E.Spellable(Call(a, [y, z])) && Normal(Call(a, [y, z]))
      && E.Spellable(Element(a, [y, z])) && Normal(Element(a, [y, z]))
      && Bare(Call(a, [y, z])) == [Ident(a), Sym(LPAREN), Ident(b), Sym(COMMA), Ident(c), Sym(RPAREN)]
      && Bare(Element(a, [y, z])) == [Ident(a), Sym(LBRACKET), Ident(b), Sym(COMMA), Ident(c), Sym(RBRACKET)]
  {
    hide E.Spelled, Spelled;
    var y, z := Variable(b), Variable(c);
    NameIs(1, b);
    NameIs(1, c);
    assert [y, z][1..] == [z];
    assert Listed([z]) == [Ident(c)];
    assert Listed([y, z]) == [Ident(b), Sym(COMMA), Ident(c)];
  }

  lemma TernaryBare(a: string, b: string, c: string)
    requires IsName(a) && IsName(b) && IsName(c)
    ensures
      var e := Ternary(Variable(a), Variable(b), Variable(c));
      E.Spellable(e) && Normal(e) && Bare(e) == [Ident(a), Sym(QUESTION), Ident(b), Sym(COLON), Ident(c)]
  {
    hide E.Spelled, Spelled;
    NameIs(3, a);
    NameIs(1, b);
    NameIs(2, c);
  }
}

/** From text to tree and back: a printed tree, written out with a space between its tokens, is
    scanned as those tokens and parsed as that tree. */
module ExpressionText {
  import opened Options
  import opened Texts
  import opened ExpressionGrammar
  import opened ExpressionRoundTrip
  import L = Lexing

  // ----- Tokens as the scanner has them, and as the parser sees them -----

  function SymbolText(s: Symbol): string {
    match s
    case LESS => "<" case LESS_EQUAL => "<=" case GREATER => ">" case GREATER_EQUAL => ">="
    case EQUAL_EQUAL => "==" case NOT_EQUAL => "!=" case OR_OR => "||" case AND_AND => "&&"
    case MATCH => "~" case NOT_MATCH => "!~" case IN => "in"
    case PLUS => "+" case MINUS => "-" case STAR => "*" case SLASH => "/" case PERCENT => "%" case CARET => "^"
    case BANG => "!" case PLUS_PLUS => "++" case MINUS_MINUS => "--"
    case EQUAL => "=" case PLUS_EQUAL => "+=" case MINUS_EQUAL => "-=" case STAR_EQUAL => "*=" case SLASH_EQUAL => "/="
    case PERCENT_EQUAL => "%=" case CARET_EQUAL => "^="
    case DOLLAR => "$" case QUESTION => "?" case COLON => ":"
    case LPAREN => "(" case RPAREN => ")" case LBRACKET => "[" case RBRACKET => "]" case COMMA => ","
    case OTHER => ""
  }

  /** The token as it is written. */
  function Written(t: Token): L.Token {
    match t
    case Str(raw) => L.Str(raw)
    case Num(text) => L.Number(text)
    case Regex(raw) => L.Regex(raw)
    case Ident(name) => L.Ident(name)
    case Sym(s) => if s == IN then L.Keyword("in") else L.Op(SymbolText(s))
    case EOF => L.Op("")
  }

  function AllWritten(ts: Tokens): seq<L.Token> {
    if ts == [] then [] else [Written(ts[0])] + AllWritten(ts[1..])
  }

  function SymbolOfOne(c: char): Symbol {
    match c
    case '<' => LESS case '>' => GREATER case '~' => MATCH case '+' => PLUS case '-' => MINUS case '*' => STAR
    case '/' => SLASH case '%' => PERCENT case '^' => CARET case '!' => BANG case '=' => EQUAL case '$' => DOLLAR
    case '?' => QUESTION case ':' => COLON case '(' => LPAREN case ')' => RPAREN
      case '[' => LBRACKET case ']' => RBRACKET
    case ',' => COMMA case _ => OTHER
  }

  function SymbolOfTwo(c: char, d: char): Symbol {
    if d == '=' then
      match c
      case '<' => LESS_EQUAL case '>' => GREATER_EQUAL case '=' => EQUAL_EQUAL
        case '!' => NOT_EQUAL case '+' => PLUS_EQUAL
      case '-' => MINUS_EQUAL case '*' => STAR_EQUAL case '/' => SLASH_EQUAL case '%' => PERCENT_EQUAL
        case '^' => CARET_EQUAL
      case _ => OTHER
    else if c == '!' && d == '~' then NOT_MATCH
    else if c != d then OTHER
    else
      match c
      case '|' => OR_OR case '&' => AND_AND case '+' => PLUS_PLUS case '-' => MINUS_MINUS case _ => OTHER
  }

  function SymbolOfText(text: string): Symbol {
    if |text| == 1 then SymbolOfOne(text[0]) else if |text| == 2 then SymbolOfTwo(text[0], text[1]) else OTHER
  }

  /** What the parser sees of a token; keywords other than `in` are nothing to an expression. */
  function Seen(t: L.Token): Token {
    match t
    case Keyword(text) => if text == "in" then Sym(IN) else Sym(OTHER)
    case Ident(text) => Ident(text)
    case Number(text) => Num(text)
    case Str(text) => Str(text)
    case Regex(text) => Regex(text)
    case Op(text) => Sym(SymbolOfText(text))
  }

  function AllSeen(ts: seq<L.Token>): Tokens {
    if ts == [] then [] else [Seen(ts[0])] + AllSeen(ts[1..])
  }

  lemma SymbolSeen(s: Symbol)
    requires s != OTHER && s != IN
    ensures SymbolOfText(SymbolText(s)) == s
  {
    if s in SHORT { ShortSeen(s); } else { LongSeen(s); }
  }

  /** The symbols written with one character. */
  const SHORT := {LESS, GREATER, MATCH, PLUS, MINUS, STAR, SLASH, PERCENT, CARET, BANG, EQUAL, DOLLAR, QUESTION, COLON,
    LPAREN, RPAREN, LBRACKET, RBRACKET, COMMA}

  lemma ShortSeen(s: Symbol)
    requires s in SHORT
    ensures SymbolOfText(SymbolText(s)) == s
  {
    hide SymbolOfTwo;
    var c := ShortCharacter(s);
    assert SymbolOfOne(c) == s;
  }

  lemma ShortCharacter(s: Symbol) returns (c: char)
    requires s in SHORT
    ensures SymbolText(s) == [c]
  {
    c := SymbolText(s)[0];
  }

  lemma LongSeen(s: Symbol)
    requires s !in SHORT && s != OTHER && s != IN
    ensures SymbolOfText(SymbolText(s)) == s
  {
    hide SymbolOfOne;
  }

  // ----- Tokens that can be written -----

  /** Scanned on its own, the token's text is that token. */
  predicate Spelled(t: Token) {
    match t
    case Str(raw) => raw != "" && raw[0] == '"' && L.StringRun(raw[1..], false) == Some(|raw| - 1)
    case Num(text) => text != "" && L.ScansAsDigit(text[0]) && L.NumberRun(text, false) == |text|
    case Regex(raw) => raw != "" && raw[0] == '/' && L.RegexRun(raw[1..], false, false) == Some(|raw| - 1)
    case Ident(name) => name != "" && L.IsLetter(name[0]) && L.WordRun(name) == |name| && !L.IsKeyword(name)
    case Sym(s) => s != OTHER
    case EOF => false
  }

  /** A `/` divides where no operand can come, and opens a regular expression where one can. */
  predicate Fits(t: Token, expected: bool) {
    Spelled(t) && (t.Regex? ==> expected) && (t == Sym(SLASH) || t == Sym(SLASH_EQUAL) ==> !expected)
  }

  function Next(t: Token, expected: bool): bool {
    L.ExpectsAfter(Written(t), expected)
  }

  lemma SeenWritten(t: Token)
    requires Spelled(t)
    ensures Seen(Written(t)) == t
  {
    if t.Sym? && t.symbol != IN { SymbolSeen(t.symbol); }
  }

  lemma OneScanned(c: char, expected: bool)
    requires L.IsPunctuation(c) || (c == '/' && !expected)
    ensures L.Scan([c], expected) == L.Found(L.Op([c]), "")
  {
    assert [c][..1] == [c] && [c][1..] == "";
  }

  lemma TwoScanned(c: char, d: char, expected: bool)
    requires L.IsPair(c, d) || (c == '/' && d == '=' && !expected)
    ensures L.Scan([c, d], expected) == L.Found(L.Op([c, d]), "")
  {
    hide L.BlankRun, L.CommentRun, L.RegexRun, L.StringRun, L.WordRun, L.NumberRun, L.IsKeyword, L.IsPunctuation;
    assert [c, d][..2] == [c, d] && [c, d][2..] == "";
  }

  lemma ShortCharacters(s: Symbol)
    requires s in SHORT
    ensures var text := SymbolText(s); |text| == 1 && (L.IsPunctuation(text[0]) || (s == SLASH && text[0] == '/'))
  {
    hide L.IsPair;
    var c := ShortCharacter(s);
  }

  lemma LongCharacters(s: Symbol)
    requires s !in SHORT && s != OTHER && s != IN
    ensures
      var text := SymbolText(s);
      |text| == 2 && (L.IsPair(text[0], text[1]) || (s == SLASH_EQUAL && text[0] == '/' && text[1] == '='))
  {
    hide L.IsPunctuation;
  }

  lemma SymbolScanned(s: Symbol, expected: bool)
    requires s != OTHER && s != IN && (s == SLASH || s == SLASH_EQUAL ==> !expected)
    ensures L.Scan(SymbolText(s), expected) == L.Found(L.Op(SymbolText(s)), "")
  {
    hide L.Scan, SymbolText, L.IsPunctuation, L.IsPair;
    var text := SymbolText(s);
    if s in SHORT {
      ShortCharacters(s);
      OneScanned(text[0], expected);
      assert text == [text[0]];
    } else {
      LongCharacters(s);
      TwoScanned(text[0], text[1], expected);
      assert text == [text[0], text[1]];
    }
  }

  lemma Scanned(t: Token, expected: bool)
    requires Fits(t, expected)
    ensures L.Scan(Written(t).text, expected) == L.Found(Written(t), "")
  {
    var text := Written(t).text;
    assert text[..|text|] == text && text[|text|..] == "";
    match t {
      case Ident(name) => WordScanned(name, expected);
      case Num(n) =>
        L.NumberScan(n, expected);
        hide L.Scan;
      case Sym(s) =>
        if s == IN { L.WordScan("in", expected); KeywordIn(); } else { SymbolScanned(s, expected); }
        hide L.Scan, SymbolText;
      case _ => LiteralScanned(t, expected);
    }
  }

  lemma WordScanned(name: string, expected: bool)
    requires Spelled(Ident(name))
    ensures L.Scan(name, expected) == L.Found(L.Ident(name), "")
  {
    L.WordScan(name, expected);
    hide L.Scan;
    assert name[..|name|] == name && name[|name|..] == "";
  }

  lemma LiteralScanned(t: Token, expected: bool)
    requires Fits(t, expected) && (t.Str? || t.Regex?)
    ensures L.Scan(t.raw, expected) == L.Found(Written(t), "")
  {
    hide L.RegexRun, L.StringRun;
    assert t.raw[..|t.raw|] == t.raw && t.raw[|t.raw|..] == "";
  }

  lemma KeywordIn()
    ensures L.WordRun("in") == 2 && L.WordToken("in") == L.Keyword("in")
  {
    assert L.WordRun("n") == 1;
    assert "in"[1..] == "n" && "n"[1..] == "";
  }

  predicate AllFit(ts: Tokens, expected: bool) {
    ts == [] || (Fits(ts[0], expected) && AllFit(ts[1..], Next(ts[0], expected)))
  }

  /** Whether an operand may come after the tokens. */
  function Following(ts: Tokens, expected: bool): bool {
    if ts == [] then expected else Following(ts[1..], Next(ts[0], expected))
  }

  lemma {:induction false} FitAppend(a: Tokens, b: Tokens, expected: bool)
    ensures AllFit(a + b, expected) <==> AllFit(a, expected) && AllFit(b, Following(a, expected))
    ensures Following(a + b, expected) == Following(b, Following(a, expected))
    decreases a
  {
    if a == [] {
      assert a + b == b;
    } else {
      hide Fits, Next;
      assert (a + b)[0] == a[0] && (a + b)[1..] == a[1..] + b;
      FitAppend(a[1..], b, Next(a[0], expected));
    }
  }

  lemma FitOne(t: Token, expected: bool)
    ensures AllFit([t], expected) <==> Fits(t, expected)
    ensures Following([t], expected) == Next(t, expected)
  {
    assert [t][1..] == [];
  }

  /** Tokens that fit, written with single spaces between them, are scanned as those tokens. */
  lemma {:induction false} WrittenLexes(ts: Tokens, expected: bool)
    requires AllFit(ts, expected)
    ensures L.Lex(L.Spaced(AllWritten(ts)), expected) == Some(AllWritten(ts)) && AllSeen(AllWritten(ts)) == ts
    ensures var spaced := L.Spaced(AllWritten(ts)); spaced == "" || !L.IsBlank(spaced[0])
    decreases ts
  {
    hide L.Scan, L.Lex, Fits, L.IsBlank, L.ExpectsAfter, Written, Seen;
    if ts == [] {
      L.LexNothing(expected);
    } else {
      var more, after := AllWritten(ts[1..]), Next(ts[0], expected);
      WrittenLexes(ts[1..], after);
      FirstWritten(ts[0], expected, more);
      assert ([Written(ts[0])] + more)[1..] == more;
    }
  }

  /** The first token in front of others that lex. */
  lemma FirstWritten(first: Token, expected: bool, more: seq<L.Token>)
    requires Fits(first, expected)
    requires
      var spaced := L.Spaced(more);
      L.Lex(spaced, Next(first, expected)) == Some(more) && (spaced == "" || !L.IsBlank(spaced[0]))
    ensures Seen(Written(first)) == first
    ensures
      var spaced := L.Spaced([Written(first)] + more);
      L.Lex(spaced, expected) == Some([Written(first)] + more) && spaced != "" && !L.IsBlank(spaced[0])
  {
    hide L.Scan, L.Lex, Fits, L.IsBlank, L.ExpectsAfter, Written, Seen;
    var t, spaced := Written(first), L.Spaced(more);
    Scanned(first, expected);
    SeenIfFits(first, expected);
    assert ([t] + more)[1..] == more;
    if more == [] {
      assert L.Spaced([t] + more) == t.text && t.text + "" == t.text;
      L.ScannedAgain(t.text, expected, "");
      L.LexNothing(L.ExpectsAfter(t, expected));
      LexNext(t, expected, "", []);
    } else {
      assert L.Spaced([t] + more) == t.text + (" " + spaced);
      L.ScannedAgain(t.text, expected, " " + spaced);
      SpaceLexes(spaced, L.ExpectsAfter(t, expected));
      LexNext(t, expected, " " + spaced, more);
    }
  }

  lemma SeenIfFits(t: Token, expected: bool)
    requires Fits(t, expected)
    ensures Seen(Written(t)) == t
  {
    SeenWritten(t);
  }

  lemma SpaceLexes(s: string, expected: bool)
    requires s == "" || !L.IsBlank(s[0])
    ensures L.Lex(" " + s, expected) == L.Lex(s, expected)
  {
    hide L.Scan;
    L.SpaceSkipped(s, expected);
  }

  lemma LexNext(t: L.Token, expected: bool, tail: string, more: seq<L.Token>)
    requires L.Scan(t.text + tail, expected) == L.Found(t, tail)
      && L.Lex(tail, L.ExpectsAfter(t, expected)) == Some(more)
    ensures L.Lex(t.text + tail, expected) == Some([t] + more)
  {
    hide L.Scan, L.ExpectsAfter;
  }

  // ----- Printed trees fit -----

  /** Literals and names are written as the scanner would have them. */
  predicate Spellable(e: Tree)
    decreases e
  {
    match e
    case StringLit(raw) => Spelled(Str(raw))
    case NumberLit(text) => Spelled(Num(text))
    case RegexLit(raw) => Spelled(Regex(raw))
    case Variable(name) => Spelled(Ident(name))
    case Call(name, args) => Spelled(Ident(name)) && forall a :: a in args ==> Spellable(a)
    case Element(name, subscripts) => Spelled(Ident(name)) && forall s :: s in subscripts ==> Spellable(s)
    case FixedField(_) => true
    case Field(index) => Spellable(index)
    case Postfix(_, operand) => Spellable(operand)
    case Unary(_, operand) => Spellable(operand)
    case Binary(_, l, r) => Spellable(l) && Spellable(r)
    case Ternary(c, t, f) => Spellable(c) && Spellable(t) && Spellable(f)
    case Assignment(target, _, value) => Spellable(target) && Spellable(value)
  }

  lemma {:induction false} DigitsRun(s: string, pointSeen: bool)
    requires forall c :: c in s ==> IsDigit(c)
    ensures L.NumberRun(s, pointSeen) == |s|
  {
    if s != "" { DigitsRun(s[1..], pointSeen); }
  }

  lemma {:induction false} DecimalSpelled(n: nat)
    ensures (forall c :: c in Decimal(n) ==> IsDigit(c)) && Spelled(Num(Decimal(n)))
  {
    if n >= 10 { DecimalSpelled(n / 10); }
    DigitsRun(Decimal(n), false);
  }

  /** The tokens fit, and no operand may come after them. */
  predicate Operand(ts: Tokens, expected: bool) {
    AllFit(ts, expected) && !Following(ts, expected)
  }

  /** An operator after an operand, and another operand. */
  lemma OperandThen(a: Tokens, t: Token, b: Tokens, expected: bool)
    requires Operand(a, expected) && Fits(t, false) && Next(t, false) && Operand(b, true)
    ensures Operand(a + [t] + b, expected)
  {
    FitAppend(a, [t], expected);
    FitOne(t, false);
    FitAppend(a + [t], b, expected);
  }

  /** Something in front of an operand. */
  lemma BeforeOperand(t: Token, b: Tokens, expected: bool)
    requires Fits(t, expected) && Operand(b, Next(t, expected))
    ensures Operand([t] + b, expected)
  {
    FitOne(t, expected);
    FitAppend([t], b, expected);
  }

  /** Something behind an operand that leaves it one. */
  lemma BehindOperand(a: Tokens, t: Token, expected: bool)
    requires Operand(a, expected) && Fits(t, false) && !Next(t, false)
    ensures Operand(a + [t], expected)
  {
    FitOne(t, false);
    FitAppend(a, [t], expected);
  }

  lemma GroupFits(ts: Tokens, expected: bool)
    requires Operand(ts, true)
    ensures Operand(Grouped(ts), expected)
  {
    hide Operand, Fits, Next;
    SignFits(LPAREN, expected);
    BracketFits(RPAREN);
    BeforeOperand(Sym(LPAREN), ts, expected);
    BehindOperand([Sym(LPAREN)] + ts, Sym(RPAREN), expected);
  }

  lemma {:induction false} PrintAtFits(level: nat, stop: bool, e: Tree, expected: bool)
    requires Spellable(e) && (expected || !Clings(First(PrintAt(level, stop, e))))
    ensures Operand(PrintAt(level, stop, e), expected)
    decreases e, 2
  {
    if LevelOf(e) < level || Exposed(stop, e) {
      PrintFits(false, e, true);
      GroupFits(Print(false, e), expected);
    } else {
      PrintFits(stop, e, expected);
    }
  }

  lemma {:induction false} PrintFits(stop: bool, e: Tree, expected: bool)
    requires Spellable(e) && (expected || !Clings(First(Print(stop, e))))
    ensures Operand(Print(stop, e), expected)
    decreases e, 1
  {
    hide Operand, Fits, Next, PrintAt, PrintList, Spelled, Clings;
    match e
    case StringLit(raw) => LeafFits(Str(raw), expected);
    case NumberLit(text) => LeafFits(Num(text), expected);
    case RegexLit(raw) => LeafFits(Regex(raw), expected);
    case Variable(name) => LeafFits(Ident(name), expected);
    case Call(name, args) => CallFits(name, LPAREN, args, RPAREN, expected);
    case Element(name, subscripts) => CallFits(name, LBRACKET, subscripts, RBRACKET, expected);
    case FixedField(n) => FixedFieldFits(n, expected);
    case Field(index) =>
      PrintAtFits(UNARY, false, index, true);
      SignFits(DOLLAR, expected);
      BeforeOperand(Sym(DOLLAR), PrintAt(UNARY, false, index), expected);
    case Postfix(op, operand) =>
      BeginsAt(PRIMARY, stop, operand);
      PrintAtFits(PRIMARY, stop, operand, expected);
      PostfixFits(op);
      BehindOperand(PrintAt(PRIMARY, stop, operand), PostfixToken(op), expected);
    case Unary(op, operand) =>
      PrintAtFits(UNARY, stop, operand, true);
      UnaryFits(op, expected);
      BeforeOperand(UnaryToken(op), PrintAt(UNARY, stop, operand), expected);
    case Binary(_, _, _) => BinaryFits(stop, e, expected);
    case Ternary(_, _, _) => TernaryFits(e, expected);
    case Assignment(_, _, _) => AssignFits(e, expected);
  }

  lemma FixedFieldFits(n: nat, expected: bool)
    ensures Operand([Sym(DOLLAR), Num(Decimal(n))], expected)
  {
    hide Operand, Fits, Next, Decimal;
    DecimalSpelled(n);
    LeafFits(Num(Decimal(n)), true);
    SignFits(DOLLAR, expected);
    BeforeOperand(Sym(DOLLAR), [Num(Decimal(n))], expected);
    assert [Sym(DOLLAR)] + [Num(Decimal(n))] == [Sym(DOLLAR), Num(Decimal(n))];
  }

  lemma {:induction false} TernaryFits(e: Tree, expected: bool)
    requires e.Ternary? && Spellable(e) && (expected || !Clings(First(Print(false, e))))
    ensures Operand(Print(false, e), expected)
    decreases e, 0
  {
    hide Operand, Fits, Next, PrintAt, Clings;
    var c, t, f := PrintAt(OR, false, e.test), PrintAt(ASSIGN, false, e.ifTrue), PrintAt(CONDITIONAL, false, e.ifFalse);
    BeginsAt(OR, false, e.test);
    PrintAtFits(OR, false, e.test, expected);
    PrintAtFits(ASSIGN, false, e.ifTrue, true);
    PrintAtFits(CONDITIONAL, false, e.ifFalse, true);
    OperatorFits(QUESTION);
    OperatorFits(COLON);
    OperandThen(c, Sym(QUESTION), t, expected);
    OperandThen(c + [Sym(QUESTION)] + t, Sym(COLON), f, expected);
  }

  lemma {:induction false} AssignFits(e: Tree, expected: bool)
    requires e.Assignment? && Spellable(e) && (expected || !Clings(First(Print(false, e))))
    ensures Operand(Print(false, e), expected)
    decreases e, 0
  {
    hide Operand, Fits, Next, PrintAt, Clings;
    var target, value := PrintAt(CONDITIONAL, false, e.target), PrintAt(ASSIGN, false, e.value);
    BeginsAt(CONDITIONAL, false, e.target);
    PrintAtFits(CONDITIONAL, false, e.target, expected);
    PrintAtFits(ASSIGN, false, e.value, true);
    AssignmentFits(e.aop);
    OperandThen(target, AssignmentToken(e.aop), value, expected);
  }

  lemma LeafFits(t: Token, expected: bool)
    requires (t.Str? || t.Num? || t.Regex? || t.Ident?) && Spelled(t) && (expected || !Clings(t))
    ensures Operand([t], expected)
  {
    FitOne(t, expected);
  }

  /** What may stand in front of an operand wherever an operand may stand. */
  lemma SignFits(s: Symbol, expected: bool)
    requires s == DOLLAR || s == LPAREN
    ensures Fits(Sym(s), expected) && Next(Sym(s), expected)
  {
  }

  lemma BracketFits(s: Symbol)
    requires s == RPAREN || s == RBRACKET
    ensures Fits(Sym(s), false) && !Next(Sym(s), false)
  {
  }

  lemma OperatorFits(s: Symbol)
    requires s != OTHER && s != PLUS_PLUS && s != MINUS_MINUS && s != RPAREN && s != RBRACKET
    ensures Fits(Sym(s), false) && Next(Sym(s), false)
  {
  }

  lemma PostfixFits(op: PostfixOp)
    ensures Fits(PostfixToken(op), false) && !Next(PostfixToken(op), false)
  {
  }

  lemma UnaryFits(op: UnaryOp, expected: bool)
    requires expected || !Clings(UnaryToken(op))
    ensures Fits(UnaryToken(op), expected) && Next(UnaryToken(op), expected)
  {
  }

  lemma AssignmentFits(op: AssignmentOp)
    ensures Fits(AssignmentToken(op), false) && Next(AssignmentToken(op), false)
  {
    hide Fits, Next;
    OperatorFits(AssignmentToken(op).symbol);
  }

  lemma {:induction false} BinaryFits(stop: bool, e: Tree, expected: bool)
    requires e.Binary? && Spellable(e) && (expected || !Clings(First(Print(stop, e))))
    ensures Operand(Print(stop, e), expected)
    decreases e, 0, 1
  {
    hide Operand, Fits, Next, PrintAt, Clings, Spelled;
    hide SymbolOf, LevelOfOp, Print;
    var op, l, r := e.bop, e.left, e.right;
    if op == ConcatOp {
      ConcatFits(stop, e, expected);
    } else {
      var level := if op == PowOp then UNARY else if op == InOp then CONCAT else LevelOfOp(op);
      var after := if op == PowOp then POWER else if op == InOp then CONCAT else LevelOfOp(op) + 1;
      var left, right := PrintAt(level, stop, l), PrintAt(after, stop, r);
      BinaryPrinted(stop, e, level, after);
      BeginsAt(level, stop, l);
      PrintAtFits(level, stop, l, expected);
      PrintAtFits(after, stop, r, true);
      OperatorOpFits(op);
      OperandThen(left, Sym(SymbolOf(op)), right, expected);
    }
  }

  lemma BinaryPrinted(stop: bool, e: Tree, level: nat, after: nat)
    requires e.Binary? && e.bop != ConcatOp
    requires level == if e.bop == PowOp then UNARY else if e.bop == InOp then CONCAT else LevelOfOp(e.bop)
    requires after == if e.bop == PowOp then POWER else if e.bop == InOp then CONCAT else LevelOfOp(e.bop) + 1
    ensures
      var left := PrintAt(level, stop, e.left);
      Print(stop, e) == left + [Sym(SymbolOf(e.bop))] + PrintAt(after, stop, e.right)
      && (left != [] ==> First(Print(stop, e)) == First(left))
  {
    hide PrintAt;
  }

  lemma OperatorOpFits(op: BinaryOp)
    requires op != ConcatOp
    ensures Fits(Sym(SymbolOf(op)), false) && Next(Sym(SymbolOf(op)), false)
  {
    hide Fits, Next;
    OperatorFits(SymbolOf(op));
  }

  lemma {:induction false} ConcatFits(stop: bool, e: Tree, expected: bool)
    requires e.Binary? && e.bop == ConcatOp && Spellable(e) && (expected || !Clings(First(Print(stop, e))))
    ensures Operand(Print(stop, e), expected)
    decreases e, 0, 0
  {
    hide Operand, Fits, PrintAt, Clings;
    var l, r := e.left, e.right;
    var right := RightPart(stop, r);
    var left := LeftPart(stop, l, right);
    assert Print(stop, e) == left + right;
    RightFits(stop, r);
    BeginsAt(CONCAT, stop, l);
    GroupBegins(Print(false, l));
    if left == PrintAt(CONCAT, stop, l) {
      PrintAtFits(CONCAT, stop, l, expected);
    } else {
      PrintFits(false, l, true);
      GroupFits(Print(false, l), expected);
    }
    OperandsFit(left, right, expected);
  }

  lemma OperandsFit(a: Tokens, b: Tokens, expected: bool)
    requires Operand(a, expected) && Operand(b, false)
    ensures Operand(a + b, expected)
  {
    FitAppend(a, b, expected);
  }

  lemma {:induction false} RightFits(stop: bool, r: Tree)
    requires Spellable(r)
    ensures Operand(RightPart(stop, r), false)
    decreases r, 3
  {
    if Clings(First(PrintAt(ADDITIVE, stop, r))) {
      PrintFits(false, r, true);
      GroupFits(Print(false, r), false);
    } else {
      PrintAtFits(ADDITIVE, stop, r, false);
    }
  }

  /** A name, an opening bracket, a list, and a closing one. */
  lemma {:induction false} CallFits(name: string, open: Symbol, es: seq<Tree>, close: Symbol, expected: bool)
    requires Spelled(Ident(name)) && (forall a :: a in es ==> Spellable(a))
    requires (open == LPAREN && close == RPAREN) || (open == LBRACKET && close == RBRACKET)
    ensures Operand([Ident(name), Sym(open)] + PrintList(es) + [Sym(close)], expected)
    decreases es, 1
  {
    var start, list := [Ident(name), Sym(open)], PrintList(es);
    CallStarts(name, open, expected);
    FitAppend(start, list, expected);
    FitAppend(start + list, [Sym(close)], expected);
    hide Fits, Next;
    if es != [] { ListFits(es); }
    Closes(close, Following(list, true));
  }

  lemma CallStarts(name: string, open: Symbol, expected: bool)
    requires Spelled(Ident(name)) && (open == LPAREN || open == LBRACKET)
    ensures AllFit([Ident(name), Sym(open)], expected) && Following([Ident(name), Sym(open)], expected)
  {
    assert [Ident(name), Sym(open)] == [Ident(name)] + [Sym(open)];
    FitOne(Ident(name), expected);
    FitOne(Sym(open), false);
    FitAppend([Ident(name)], [Sym(open)], expected);
  }

  lemma Closes(close: Symbol, expected: bool)
    requires close == RPAREN || close == RBRACKET
    ensures Operand([Sym(close)], expected)
  {
    FitOne(Sym(close), expected);
  }

  lemma {:induction false} ListFits(es: seq<Tree>)
    requires es != [] && (forall a :: a in es ==> Spellable(a))
    ensures Operand(PrintList(es), true)
    decreases es, 0
  {
    hide Operand, Fits, PrintAt, Print;
    PrintAtFits(ASSIGN, false, es[0], true);
    if |es| > 1 {
      ListFits(es[1..]);
      OperatorFits(COMMA);
      OperandThen(PrintAt(ASSIGN, false, es[0]), Sym(COMMA), PrintList(es[1..]), true);
    }
  }

  // ----- From tree to text to tree -----

  /** The text of a tree. */
  function TextOf(level: nat, stop: bool, e: Tree): string {
    L.Spaced(AllWritten(PrintAt(level, stop, e)))
  }

  /** Scanning and parsing the text of a tree gives the tree and uses up the text. */
  lemma TextReads(level: nat, stop: bool, e: Tree)
    requires level <= PRIMARY && Normal(e) && Spellable(e)
    ensures
      var tokens := L.Lex(TextOf(level, stop, e), true);
      tokens.Some? && Parse(level, stop, AllSeen(tokens.value)) == Some(Parsed(e, []))
  {
    hide Normal, Spellable, Parse, L.Lex, AllSeen, AllWritten;
    var ts := PrintAt(level, stop, e);
    PrintAtFits(level, stop, e, true);
    WrittenLexes(ts, true);
    NothingIsClear(level, stop);
    PrintedReads(level, stop, e, []);
    assert ts + [] == ts;
  }

  lemma NothingIsClear(level: nat, stop: bool)
    ensures Clear(level, stop, First([])) && forall ts :: Joint(ts, [])
  {
  }

  // ----- From text to tree to text -----

  predicate AllLiterate(ts: Tokens) {
    forall t :: t in ts ==> t.Sym? || Spelled(t)
  }

  /** Every literal and name the scanner finds is spelled as it would be scanned again. */
  lemma ScannedIsSpelled(s: string, expected: bool)
    requires L.Scan(s, expected).Found?
    ensures var t := Seen(L.Scan(s, expected).token); t.Sym? || Spelled(t)
  {
    hide L.WordRun, L.NumberRun, L.StringRun, L.RegexRun, L.IsKeyword;
    var t := L.Scan(s, expected).token;
    if t.Str? || t.Regex? {
      LiteralIsSpelled(s, expected);
    } else if t.Ident? {
      WordAlone(s);
    } else if t.Number? {
      NumberAlone(s, false);
    }
  }

  lemma LiteralIsSpelled(s: string, expected: bool)
    requires L.Scan(s, expected).Found? && (L.Scan(s, expected).token.Str? || L.Scan(s, expected).token.Regex?)
    ensures Spelled(Seen(L.Scan(s, expected).token))
  {
    hide L.WordRun, L.NumberRun, L.StringRun, L.RegexRun, L.IsKeyword;
    var t := L.Scan(s, expected).token;
    assert t.text[1..] == s[1..][..|t.text| - 1];
    if t.Str? { StringAlone(s[1..], false); } else { RegexAlone(s[1..], false, false); }
  }

  lemma StringAlone(s: string, escaped: bool)
    requires L.StringRun(s, escaped).Some?
    ensures var n := L.StringRun(s, escaped).value; L.StringRun(s[..n], escaped) == Some(n)
  {
    var n := L.StringRun(s, escaped).value;
    L.StringAgain(s, escaped, "");
    assert s[..n] + "" == s[..n];
  }

  lemma RegexAlone(s: string, escaped: bool, inClass: bool)
    requires L.RegexRun(s, escaped, inClass).Some?
    ensures var n := L.RegexRun(s, escaped, inClass).value; L.RegexRun(s[..n], escaped, inClass) == Some(n)
  {
    var n := L.RegexRun(s, escaped, inClass).value;
    L.RegexAgain(s, escaped, inClass, "");
    assert s[..n] + "" == s[..n];
  }

  lemma WordAlone(s: string)
    ensures L.WordRun(s[..L.WordRun(s)]) == L.WordRun(s)
  {
    L.WordAgain(s, "");
    assert s[..L.WordRun(s)] + "" == s[..L.WordRun(s)];
  }

  lemma NumberAlone(s: string, pointSeen: bool)
    ensures L.NumberRun(s[..L.NumberRun(s, pointSeen)], pointSeen) == L.NumberRun(s, pointSeen)
  {
    L.NumberAgain(s, pointSeen, "");
    assert s[..L.NumberRun(s, pointSeen)] + "" == s[..L.NumberRun(s, pointSeen)];
  }

  lemma {:induction false} LexedIsLiterate(s: string, expected: bool)
    requires L.Lex(s, expected).Some?
    ensures AllLiterate(AllSeen(L.Lex(s, expected).value))
    decreases |s|
  {
    hide L.Scan, Seen, Spelled;
    match L.Scan(s, expected)
    case End =>
    case Skipped(rest) => LexedIsLiterate(rest, expected);
    case Found(t, rest) =>
      ScannedIsSpelled(s, expected);
      LexedIsLiterate(rest, L.ExpectsAfter(t, expected));
      var more := L.Lex(rest, L.ExpectsAfter(t, expected)).value;
      assert ([t] + more)[1..] == more;
  }

  /** The tree parsed from such tokens can be written, and what is left over are such tokens. */
  lemma {:induction false} ParseIsSpellable(level: nat, stop: bool, ts: Tokens)
    requires level <= PRIMARY && AllLiterate(ts) && Parse(level, stop, ts).Some?
    ensures Spellable(Parse(level, stop, ts).value.tree) && AllLiterate(Parse(level, stop, ts).value.rest)
    decreases |ts|, 20 - level, 0
  {
    hide Tail, Primary, Spelled, OpOf;
    if level == PRIMARY {
      PrimaryIsSpellable(ts);
    } else if level == UNARY && UnaryOpOf(First(ts)).Some? {
      ParseIsSpellable(UNARY, stop, ts[1..]);
    } else {
      var inner := Parse(level + 1, stop, ts).value;
      ParseIsSpellable(level + 1, stop, ts);
      TailIsSpellable(level, stop, inner.tree, inner.rest);
    }
  }

  lemma BinaryIsSpellable(op: BinaryOp, l: Tree, r: Tree)
    requires Spellable(l) && Spellable(r)
    ensures Spellable(Binary(op, l, r))
  {
    hide Spelled;
  }

  lemma TernaryIsSpellable(c: Tree, t: Tree, f: Tree)
    requires Spellable(c) && Spellable(t) && Spellable(f)
    ensures Spellable(Ternary(c, t, f))
  {
    hide Spelled;
  }

  lemma AssignmentIsSpellable(target: Tree, op: AssignmentOp, value: Tree)
    requires Spellable(target) && Spellable(value)
    ensures Spellable(Assignment(target, op, value))
  {
    hide Spelled;
  }

  lemma PostfixIsSpellable(op: PostfixOp, e: Tree)
    requires Spellable(e)
    ensures Spellable(Postfix(op, e))
  {
    hide Spelled;
  }

  lemma RestIsLiterate(ts: Tokens)
    requires AllLiterate(ts)
    ensures ts != [] ==> AllLiterate(ts[1..])
  {
  }

  ghost predicate Reusable(p: Option<Parsed>) {
    p.Some? ==> Spellable(p.value.tree) && AllLiterate(p.value.rest)
  }

  lemma {:induction false} TailIsSpellable(level: nat, stop: bool, e: Tree, ts: Tokens)
    requires level < PRIMARY && Spellable(e) && AllLiterate(ts)
    ensures Reusable(Tail(level, stop, e, ts))
    decreases |ts|, 30
  {
    hide Parse, OpOf, StartsExpression, Spellable, AllLiterate;
    if level == ASSIGN || level == CONDITIONAL {
      RightTail(level, stop, e, ts);
    } else if Loops(level) || level == CONCAT {
      LoopingTail(level, stop, e, ts);
    } else if level == MEMBERSHIP || level == POWER {
      OneMoreTail(level, stop, e, ts);
    } else {
      RestIsLiterate(ts);
      if PostfixOpOf(First(ts)).Some? { PostfixIsSpellable(PostfixOpOf(First(ts)).value, e); }
    }
  }

  /** Assignment and `?:`. */
  lemma {:induction false} RightTail(level: nat, stop: bool, e: Tree, ts: Tokens)
    requires (level == ASSIGN || level == CONDITIONAL) && Spellable(e) && AllLiterate(ts)
    ensures Reusable(Tail(level, stop, e, ts))
    decreases |ts|, 29
  {
    hide Parse, OpOf, StartsExpression, Spellable, AllLiterate;
    if ts != [] {
      RestIsLiterate(ts);
      AnyIsSpellable(ASSIGN, false, ts[1..]);
      var yes := Parse(ASSIGN, false, ts[1..]);
      if yes.Some? {
        if AssignmentOpOf(First(ts)).Some? {
          AssignmentIsSpellable(e, AssignmentOpOf(First(ts)).value, yes.value.tree);
        }
        if level == CONDITIONAL && yes.value.rest != [] {
          RestIsLiterate(yes.value.rest);
          AnyIsSpellable(CONDITIONAL, false, yes.value.rest[1..]);
          var no := Parse(CONDITIONAL, false, yes.value.rest[1..]);
          if no.Some? { TernaryIsSpellable(e, yes.value.tree, no.value.tree); }
        }
      }
    }
  }

  /** The levels read in a loop. */
  lemma {:induction false} LoopingTail(level: nat, stop: bool, e: Tree, ts: Tokens)
    requires (Loops(level) || level == CONCAT) && Spellable(e) && AllLiterate(ts)
    ensures Reusable(Tail(level, stop, e, ts))
    decreases |ts|, 29
  {
    hide Parse, OpOf, StartsExpression, Spellable, AllLiterate;
    NothingThere(level, stop);
    if ts != [] {
      RestIsLiterate(ts);
      var goesOn := if level == CONCAT then StartsExpression(First(ts)) else OpOf(level, stop, First(ts)).Some?;
      if goesOn {
        var from := if level == CONCAT then ts else ts[1..];
        AnyIsSpellable(level + 1, stop, from);
        var right := Parse(level + 1, stop, from);
        if right.Some? {
          var op := if level == CONCAT then ConcatOp else OpOf(level, stop, First(ts)).value;
          BinaryIsSpellable(op, e, right.value.tree);
          TailIsSpellable(level, stop, Binary(op, e, right.value.tree), right.value.rest);
        }
      }
    }
  }

  /** `in` and `^`. */
  lemma {:induction false} OneMoreTail(level: nat, stop: bool, e: Tree, ts: Tokens)
    requires (level == MEMBERSHIP || level == POWER) && Spellable(e) && AllLiterate(ts)
    ensures Reusable(Tail(level, stop, e, ts))
    decreases |ts|, 29
  {
    hide Parse, OpOf, StartsExpression, Spellable, AllLiterate;
    if ts != [] {
      var from := if level == MEMBERSHIP then CONCAT else POWER;
      RestIsLiterate(ts);
      AnyIsSpellable(from, stop, ts[1..]);
      var right := Parse(from, stop, ts[1..]);
      if right.Some? { BinaryIsSpellable(if level == MEMBERSHIP then InOp else PowOp, e, right.value.tree); }
    }
  }

  lemma {:induction false} AnyIsSpellable(level: nat, stop: bool, ts: Tokens)
    requires level <= PRIMARY && AllLiterate(ts)
    ensures Reusable(Parse(level, stop, ts))
    decreases |ts|, 20 - level, 1
  {
    if Parse(level, stop, ts).Some? { ParseIsSpellable(level, stop, ts); }
  }

  lemma {:induction false} PrimaryIsSpellable(ts: Tokens)
    requires AllLiterate(ts) && Primary(ts).Some?
    ensures Spellable(Primary(ts).value.tree) && AllLiterate(Primary(ts).value.rest)
    decreases |ts|, 0
  {
    hide Parse, ParseList, IntegerOf, Spelled;
    assert First(ts) in ts;
    match First(ts)
    case Ident(name) =>
      if First(ts[1..]) == Sym(LPAREN) {
        if First(ts[2..]) != Sym(RPAREN) { ListIsSpellable(ts[2..]); }
      } else if First(ts[1..]) == Sym(LBRACKET) {
        ListIsSpellable(ts[2..]);
      }
    case Sym(DOLLAR) => ParseIsSpellable(UNARY, false, ts[1..]);
    case Sym(LPAREN) => ParseIsSpellable(ASSIGN, false, ts[1..]);
    case _ =>
  }

  lemma {:induction false} ListIsSpellable(ts: Tokens)
    requires AllLiterate(ts) && ParseList(ts).Some?
    ensures (forall e :: e in ParseList(ts).value.trees ==> Spellable(e)) && AllLiterate(ParseList(ts).value.rest)
    decreases |ts|, 31
  {
    hide Parse, Spelled, Spellable;
    ParseIsSpellable(ASSIGN, false, ts);
    var first := Parse(ASSIGN, false, ts).value;
    if First(first.rest) == Sym(COMMA) { ListIsSpellable(first.rest[1..]); }
  }

  /** Whatever text is scanned and parsed as an expression: its tree, written out anew, is scanned and
      parsed as the same tree. */
  lemma RewrittenReads(text: string, level: nat, stop: bool)
    requires level <= PRIMARY && L.Lex(text, true).Some? && Parse(level, stop, AllSeen(L.Lex(text, true).value)).Some?
    ensures
      var e := Parse(level, stop, AllSeen(L.Lex(text, true).value)).value.tree;
      var again := L.Lex(TextOf(level, stop, e), true);
      again.Some? && Parse(level, stop, AllSeen(again.value)) == Some(Parsed(e, []))
  {
    hide Parse, L.Lex, AllSeen, AllLiterate, Spellable, Normal, TextOf;
    var ts := AllSeen(L.Lex(text, true).value);
    LexedIsLiterate(text, true);
    ParseIsNormal(level, stop, ts);
    ParseIsSpellable(level, stop, ts);
    TextReads(level, stop, Parse(level, stop, ts).value.tree);
  }
}

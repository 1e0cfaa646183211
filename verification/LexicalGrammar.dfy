/** The tokens of the language written out: the words, the operators, numbers, literals as they are made
    up of their characters, and the tokens after which a `/` opens a regular expression. The scanner
    finds just these. */
module LexicalGrammar {
  import opened Options
  import opened Lexing

  // ----- The tables -----

  const WORDS := {"BEGIN", "END", "break", "continue", "delete", "do", "else", "exit", "for", "function", "if", "in",
    "next", "nextfile", "print", "printf", "return", "while"}

  const OPERATORS :=
      {"<", "<=", ">", ">=", ">>", "==", "!=", "||", "|", "&&", "~", "!~", "+", "-", "*", "/", "%", "^", "!",
    "=", "+=", "-=", "*=", "/=", "%=", "^=", "++", "--", "$", "?", ":", "{", "}", "(", ")", "[", "]", ",", ";", "\n"}

  /** The tokens that ask for an operand. */
  const ASKING :=
      {"&&", "||", "!", "~", "!~", "<", "<=", ">", ">=", "==", "!=", "=", "+=", "-=", "*=", "/=", "%=", "^=",
    "+", "-", "*", "/", "%", "^", "$", "?", ":", ",", "(", "[", "{", ";", "\n",
    "do", "else", "exit", "if", "in", "print", "printf", "return"}

  // ----- Literals -----

  /** A character as it stands, or one behind a backslash. */
  datatype Mark = Plain(c: char) | Escaped(c: char)

  datatype Piece = One(mark: Mark) | Class(members: seq<Mark>)

  function MarkText(m: Mark): string {
    match m
    case Plain(c) => [c]
    case Escaped(c) => ['\\', c]
  }

  function MarksText(ms: seq<Mark>): string {
    if ms == [] then "" else MarkText(ms[0]) + MarksText(ms[1..])
  }

  function PieceText(p: Piece): string {
    match p
    case One(m) => MarkText(m)
    case Class(members) => "[" + MarksText(members) + "]"
  }

  function PiecesText(ps: seq<Piece>): string {
    if ps == [] then "" else PieceText(ps[0]) + PiecesText(ps[1..])
  }

  /** Characters that cannot stand as they are: in a string, in a class, and elsewhere in a regular expression. */
  const STRING_MARKS := {'\n', '\\', '"'}
  const CLASS_MARKS := {'\n', '\\', ']'}
  const REGEX_MARKS := {'\n', '\\', '[', '/'}

  predicate Free(ms: seq<Mark>, marks: set<char>) {
    forall m :: m in ms && m.Plain? ==> m.c !in marks
  }

  predicate Regular(p: Piece) {
    match p
    case One(m) => m.Plain? ==> m.c !in REGEX_MARKS
    case Class(members) => Free(members, CLASS_MARKS)
  }

  predicate AllRegular(ps: seq<Piece>) {
    forall p :: p in ps ==> Regular(p)
  }

  function StringText(ms: seq<Mark>): string {
    "\"" + MarksText(ms) + "\""
  }

  function RegexText(ps: seq<Piece>): string {
    "/" + PiecesText(ps) + "/"
  }

  function Shifted(r: Option<nat>, n: nat): Option<nat> {
    if r.None? then None else Some(r.value + n)
  }

  lemma StringMark(m: Mark, tail: string)
    requires Free([m], STRING_MARKS)
    ensures StringRun(MarkText(m) + tail, false) == Shifted(StringRun(tail, false), |MarkText(m)|)
  {
    assert m in [m];
    match m {
      case Plain(c) => assert ([c] + tail)[1..] == tail;
      case Escaped(c) =>
        assert (['\\', c] + tail)[1..] == [c] + tail;
        assert ([c] + tail)[1..] == tail;
    }
  }

  lemma {:induction false} StringMarks(ms: seq<Mark>, tail: string)
    requires Free(ms, STRING_MARKS)
    ensures StringRun(MarksText(ms) + tail, false) == Shifted(StringRun(tail, false), |MarksText(ms)|)
  {
    hide StringRun, MarkText;
    if ms == [] {
      assert MarksText(ms) + tail == tail;
    } else {
      StringMark(ms[0], MarksText(ms[1..]) + tail);
      StringMarks(ms[1..], tail);
      assert MarksText(ms) + tail == MarkText(ms[0]) + (MarksText(ms[1..]) + tail);
    }
  }

  lemma RegexCharacter(c: char, escaped: bool, inClass: bool, tail: string)
    requires escaped || (c != '\n' && (c != '/' || inClass))
    ensures RegexRun([c] + tail, escaped, inClass)
      == Shifted(RegexRun(tail, !escaped && c == '\\', ClassAfter(c, escaped, inClass)), 1)
  {
    hide ClassAfter;
    assert ([c] + tail)[1..] == tail;
  }

  /** A mark in a regular expression, inside a class or outside. */
  lemma RegexMark(m: Mark, inClass: bool, tail: string)
    requires Free([m], if inClass then CLASS_MARKS else REGEX_MARKS)
    ensures RegexRun(MarkText(m) + tail, false, inClass) == Shifted(RegexRun(tail, false, inClass), |MarkText(m)|)
  {
    hide RegexRun;
    assert m in [m];
    match m {
      case Plain(c) => RegexCharacter(c, false, inClass, tail);
      case Escaped(c) => RegexEscaped(c, inClass, tail);
    }
  }

  lemma RegexEscaped(c: char, inClass: bool, tail: string)
    ensures RegexRun(['\\', c] + tail, false, inClass) == Shifted(RegexRun(tail, false, inClass), 2)
  {
    hide RegexRun;
    RegexCharacter('\\', false, inClass, [c] + tail);
    RegexCharacter(c, true, inClass, tail);
    assert ['\\', c] + tail == ['\\'] + ([c] + tail);
  }

  lemma {:induction false} ClassMarks(ms: seq<Mark>, tail: string)
    requires Free(ms, CLASS_MARKS)
    ensures RegexRun(MarksText(ms) + tail, false, true) == Shifted(RegexRun(tail, false, true), |MarksText(ms)|)
  {
    hide RegexRun, MarkText;
    if ms == [] {
      assert MarksText(ms) + tail == tail;
    } else {
      RegexMark(ms[0], true, MarksText(ms[1..]) + tail);
      ClassMarks(ms[1..], tail);
      assert MarksText(ms) + tail == MarkText(ms[0]) + (MarksText(ms[1..]) + tail);
    }
  }

  /** The brackets open and close a class. */
  lemma Brackets(tail: string)
    ensures RegexRun("[" + tail, false, false) == Shifted(RegexRun(tail, false, true), 1)
    ensures RegexRun("]" + tail, false, true) == Shifted(RegexRun(tail, false, false), 1)
  {
    assert ("[" + tail)[1..] == tail && ("]" + tail)[1..] == tail;
  }

  lemma RegexPiece(p: Piece, tail: string)
    requires Regular(p)
    ensures RegexRun(PieceText(p) + tail, false, false) == Shifted(RegexRun(tail, false, false), |PieceText(p)|)
  {
    hide RegexRun, MarkText, MarksText;
    match p {
      case One(m) => RegexMark(m, false, tail);
      case Class(members) =>
        Brackets(MarksText(members) + ("]" + tail));
        ClassMarks(members, "]" + tail);
        Brackets(tail);
        assert PieceText(p) + tail == "[" + (MarksText(members) + ("]" + tail));
    }
  }

  lemma {:induction false} RegexPieces(ps: seq<Piece>, tail: string)
    requires AllRegular(ps)
    ensures RegexRun(PiecesText(ps) + tail, false, false) == Shifted(RegexRun(tail, false, false), |PiecesText(ps)|)
  {
    hide RegexRun, PieceText, Regular;
    if ps == [] {
      assert PiecesText(ps) + tail == tail;
    } else {
      RegexPiece(ps[0], PiecesText(ps[1..]) + tail);
      RegexPieces(ps[1..], tail);
      assert PiecesText(ps) + tail == PieceText(ps[0]) + (PiecesText(ps[1..]) + tail);
    }
  }

  lemma Quoted(s: string, open: char, inner: string, close: string)
    requires [open] + inner + close <= s && |close| == 1
    ensures
      var n := |inner| + 2;
      s[0] == open && s[1..] == inner + close + s[n..] && s[..n] == [open] + inner + close
  {
    assert s == [open] + inner + close + s[|inner| + 2..];
  }

  lemma RegexFound(s: string, ps: seq<Piece>)
    requires AllRegular(ps) && RegexText(ps) <= s
    ensures Scan(s, true) == Found(Regex(RegexText(ps)), s[|RegexText(ps)|..])
  {
    hide RegexRun, StringRun, WordRun, NumberRun, IsKeyword, PiecesText, AllRegular, Scan;
    var inner := PiecesText(ps);
    Quoted(s, '/', inner, "/");
    var rest := "/" + s[|inner| + 2..];
    RegexPieces(ps, rest);
    assert s[1..] == inner + rest;
    RegexCloses(s[|inner| + 2..]);
    RegexScan(s);
  }

  lemma RegexCloses(tail: string)
    ensures RegexRun("/" + tail, false, false) == Some(1)
  {
  }

  lemma RegexScan(s: string)
    requires s != "" && s[0] == '/'
    ensures
      var n := RegexRun(s[1..], false, false);
      Scan(s, true) == if n.None? then Failed else Found(Regex(s[..n.value + 1]), s[n.value + 1..])
  {
    hide RegexRun, StringRun, WordRun, NumberRun, IsKeyword, IsPunctuation, IsPair;
  }

  lemma StringFound(s: string, ms: seq<Mark>, expected: bool)
    requires Free(ms, STRING_MARKS) && StringText(ms) <= s
    ensures Scan(s, expected) == Found(Str(StringText(ms)), s[|StringText(ms)|..])
  {
    var inner := MarksText(ms);
    Quoted(s, '"', inner, "\"");
    var rest := "\"" + s[|inner| + 2..];
    StringMarks(ms, rest);
    assert s[1..] == inner + rest;
    assert StringRun(rest, false) == Some(1);
    hide RegexRun, StringRun, WordRun, NumberRun, IsKeyword, MarksText, Free;
  }

  /** The marks of a string literal that the scanner found. */
  lemma {:induction false} StringTaken(s: string) returns (ms: seq<Mark>)
    requires StringRun(s, false).Some?
    ensures Free(ms, STRING_MARKS) && MarksText(ms) + "\"" == s[..StringRun(s, false).value]
    decreases |s|
  {
    var n := StringRun(s, false).value;
    if s[0] == '"' {
      ms := [];
    } else {
      var m, k := if s[0] == '\\' then Escaped(s[1]) else Plain(s[0]), if s[0] == '\\' then 2 else 1;
      assert s == MarkText(m) + s[k..];
      assert s[0] == '\\' ==> s[1..][1..] == s[2..];
      var more := StringTaken(s[k..]);
      ms := [m] + more;
      assert ms[1..] == more;
      assert s[..n] == s[..k] + s[k..][..n - k];
      assert MarksText(ms) + "\"" == MarkText(m) + (MarksText(more) + "\"");
    }
  }

  /** What remains of a regular expression; in a class the rest of its members come first. */
  function Remaining(inClass: bool, ms: seq<Mark>, ps: seq<Piece>): string {
    (if inClass then MarksText(ms) + "]" else "") + PiecesText(ps) + "/"
  }

  lemma PiecesStart(p: Piece, ps: seq<Piece>)
    ensures PiecesText([]) == "" && PiecesText([p] + ps) == PieceText(p) + PiecesText(ps)
  {
    hide PieceText;
    assert ([p] + ps)[1..] == ps;
  }

  lemma MarksStart(m: Mark, ms: seq<Mark>)
    ensures MarksText([]) == "" && MarksText([m] + ms) == MarkText(m) + MarksText(ms)
  {
    hide MarkText;
    assert ([m] + ms)[1..] == ms;
  }

  lemma RemainingStarts(ms: seq<Mark>, ps: seq<Piece>)
    ensures Remaining(false, ms, []) == "/"
    ensures Remaining(false, [], [Class(ms)] + ps) == "[" + Remaining(true, ms, ps)
    ensures Remaining(true, [], ps) == "]" + Remaining(false, ms, ps)
  {
    hide PiecesText, MarksText;
    PiecesStart(Class(ms), ps);
    MarksStart(Plain(']'), []);
    Enclosed(MarksText(ms), PiecesText(ps));
  }

  lemma Enclosed(a: string, b: string)
    ensures "" + (("[" + a + "]") + b) + "/" == "[" + ((a + "]") + b + "/")
    ensures ("" + "]") + b + "/" == "]" + ("" + b + "/") && "" + "" + "/" == "/"
  {
  }

  lemma RemainingMark(inClass: bool, m: Mark, ms: seq<Mark>, ps: seq<Piece>)
    ensures MarkText(m) + Remaining(inClass, ms, ps)
      == if inClass then Remaining(true, [m] + ms, ps) else Remaining(false, ms, [One(m)] + ps)
  {
    hide PiecesText, MarksText, MarkText;
    PiecesStart(One(m), ps);
    MarksStart(m, ms);
    Regrouped(MarkText(m), MarksText(ms), PiecesText(ps));
  }

  lemma Regrouped(a: string, b: string, c: string)
    ensures a + ((b + "]") + c + "/") == ((a + b) + "]") + c + "/"
    ensures a + ("" + c + "/") == "" + (a + c) + "/"
  {
  }

  /** The first mark of a text that holds the rest of a regular expression. */
  lemma FirstMark(s: string, inClass: bool) returns (m: Mark, k: nat)
    requires RegexRun(s, false, inClass).Some? && (if inClass then s[0] != ']' else s[0] != '/' && s[0] != '[')
    ensures Free([m], if inClass then CLASS_MARKS else REGEX_MARKS)
    ensures
      var n := RegexRun(s, false, inClass).value;
      0 < k <= n && RegexRun(s[k..], false, inClass) == Some(n - k) && s[..n] == MarkText(m) + s[k..][..n - k]
  {
    m, k := if s[0] == '\\' then Escaped(s[1]) else Plain(s[0]), if s[0] == '\\' then 2 else 1;
    assert s[0] == '\\' ==> s[1..][1..] == s[2..];
    var n := RegexRun(s, false, inClass).value;
    assert RegexRun(s[k..], false, inClass) == Some(n - k);
    hide RegexRun;
    assert s[..k] == MarkText(m);
    assert s[..n] == s[..k] + s[k..][..n - k];
  }

  /** A bracket or the last slash. */
  lemma FirstSign(s: string, inClass: bool)
    requires RegexRun(s, false, inClass).Some? && (if inClass then s[0] == ']' else s[0] == '/' || s[0] == '[')
    ensures
      var n := RegexRun(s, false, inClass).value;
      if s[0] == '/' then s[..n] == "/"
      else RegexRun(s[1..], false, !inClass) == Some(n - 1) && s[..n] == [s[0]] + s[1..][..n - 1]
  {
    var n := RegexRun(s, false, inClass).value;
    assert s[0] != '/' ==> RegexRun(s[1..], false, !inClass) == Some(n - 1);
    assert s[0] == '/' ==> n == 1;
    hide RegexRun;
  }

  /** The pieces of a regular expression that the scanner found. */
  lemma {:induction false} RegexTaken(s: string, inClass: bool) returns (ms: seq<Mark>, ps: seq<Piece>)
    requires RegexRun(s, false, inClass).Some?
    ensures Free(ms, CLASS_MARKS) && AllRegular(ps)
    ensures Remaining(inClass, ms, ps) == s[..RegexRun(s, false, inClass).value]
    decreases |s|
  {
    hide RegexRun, MarkText, MarksText, PiecesText, Remaining;
    if inClass && s[0] == ']' {
      FirstSign(s, inClass);
      var none, others := RegexTaken(s[1..], false);
      RemainingStarts(none, others);
      ms, ps := [], others;
    } else if inClass || (s[0] != '/' && s[0] != '[') {
      var m, k := FirstMark(s, inClass);
      var members, others := RegexTaken(s[k..], inClass);
      RemainingMark(inClass, m, members, others);
      assert m in [m];
      ms, ps := if inClass then [m] + members else members, if inClass then others else [One(m)] + others;
    } else {
      FirstSign(s, inClass);
      if s[0] == '/' {
        ms, ps := [], [];
        RemainingStarts(ms, ps);
      } else {
        var members, others := RegexTaken(s[1..], true);
        RemainingStarts(members, others);
        ms, ps := [], [Class(members)] + others;
      }
    }
  }

  /** Where an operand may come, a slash opens the one regular expression that the text begins with: single
      characters, escaped characters and classes up to another slash. If there is none, the scanner fails. */
  lemma RegexLiterals(s: string)
    requires s != "" && s[0] == '/'
    ensures forall ps | AllRegular(ps) && RegexText(ps) <= s ::
      Scan(s, true) == Found(Regex(RegexText(ps)), s[|RegexText(ps)|..])
    ensures (forall ps | AllRegular(ps) :: !(RegexText(ps) <= s)) ==> Scan(s, true) == Failed
  {
    hide Scan, AllRegular, RegexText;
    forall ps | AllRegular(ps) && RegexText(ps) <= s
      ensures Scan(s, true) == Found(Regex(RegexText(ps)), s[|RegexText(ps)|..])
    {
      RegexFound(s, ps);
    }
    if Scan(s, true) != Failed { var ps := RegexWhole(s); }
  }

  lemma RegexWhole(s: string) returns (ps: seq<Piece>)
    requires s != "" && s[0] == '/' && Scan(s, true) != Failed
    ensures AllRegular(ps) && RegexText(ps) <= s
  {
    hide RegexRun, AllRegular, PiecesText, MarksText, Scan;
    RegexScan(s);
    var _, found := RegexTaken(s[1..], false);
    ps := found;
    var n := RegexRun(s[1..], false, false).value;
    assert "" + PiecesText(ps) + "/" == s[1..][..n];
    assert RegexText(ps) == "/" + s[1..][..n] == s[..n + 1];
  }

  /** A quote opens the one string literal that the text begins with, up to a quote without a backslash. */
  lemma StringLiterals(s: string, expected: bool)
    requires s != "" && s[0] == '"'
    ensures forall ms | Free(ms, STRING_MARKS) && StringText(ms) <= s ::
      Scan(s, expected) == Found(Str(StringText(ms)), s[|StringText(ms)|..])
    ensures (forall ms | Free(ms, STRING_MARKS) :: !(StringText(ms) <= s)) ==> Scan(s, expected) == Failed
  {
    hide Scan, Free, StringText;
    forall ms | Free(ms, STRING_MARKS) && StringText(ms) <= s
      ensures Scan(s, expected) == Found(Str(StringText(ms)), s[|StringText(ms)|..])
    {
      StringFound(s, ms, expected);
    }
    if Scan(s, expected) != Failed { var ms := StringWhole(s, expected); }
  }

  lemma StringWhole(s: string, expected: bool) returns (ms: seq<Mark>)
    requires s != "" && s[0] == '"' && Scan(s, expected) != Failed
    ensures Free(ms, STRING_MARKS) && StringText(ms) <= s
  {
    hide RegexRun, StringRun, WordRun, NumberRun, IsKeyword, Free, MarksText;
    assert StringRun(s[1..], false).Some?;
    hide Scan;
    ms := StringTaken(s[1..]);
    assert s == "\"" + s[1..];
  }

  // ----- After which tokens a slash opens a regular expression -----

  /** Increments and decrements change nothing. */
  predicate Opens(text: string, expected: bool) {
    if text == "++" || text == "--" then expected else text in ASKING
  }

  /** A slash after any token the scanner returns, with a text behind it that would make it a regular expression. */
  lemma SlashAfter(s: string, expected: bool, ps: seq<Piece>)
    requires Scan(s, expected).Found? && AllRegular(ps)
    ensures
      var t, inner := Scan(s, expected).token, PiecesText(ps);
      var all := t.text + " /" + inner + "/";
      && (Opens(t.text, expected) ==> Lex(all, expected) == Some([t, Regex("/" + inner + "/")]))
      && (!Opens(t.text, expected) && (inner == "" || inner[0] != '=') ==>
          Lex(all, expected) == Led([t, Op("/")], Lex(inner + "/", true)))
      && (!Opens(t.text, expected) && inner != "" && inner[0] == '=' ==>
          Lex(all, expected) == Led([t, Op("/=")], Lex(inner[1..] + "/", true)))
  {
    hide Scan, Lex, RegexText, PiecesText, ExpectsAfter, AllRegular, Opens;
    var t, slash := Scan(s, expected).token, RegexText(ps);
    ScannedAgain(s, expected, "");
    assert t.text + "" == t.text;
    ScannedAgain(s, expected, " " + slash);
    Spacing(t.text, ps);
    AsksForOperand(t.text, expected);
    Front(ps);
    SpaceSkipped(slash, Opens(t.text, expected));
    LexFound(t.text + (" " + slash), expected);
    LexSkipped(" " + slash, Opens(t.text, expected));
    if Opens(t.text, expected) { SlashOpens(ps, t); } else { SlashDivides(ps, t); }
  }

  lemma Spacing(text: string, ps: seq<Piece>)
    ensures text + " /" + PiecesText(ps) + "/" == text + (" " + RegexText(ps))
  {
    hide PiecesText;
  }

  function Led(first: seq<Token>, more: Option<seq<Token>>): Option<seq<Token>> {
    if more.None? then None else Some(first + more.value)
  }

  lemma Front(ps: seq<Piece>)
    ensures RegexText(ps) != "" && !IsBlank(RegexText(ps)[0])
  {
  }

  lemma LexFound(s: string, expected: bool)
    requires Scan(s, expected).Found?
    ensures var Found(t, rest) := Scan(s, expected); Lex(s, expected) == Led([t], Lex(rest, ExpectsAfter(t, expected)))
  {
    hide Scan, ExpectsAfter;
  }

  lemma LexSkipped(s: string, expected: bool)
    requires Scan(s, expected).Skipped?
    ensures Lex(s, expected) == Lex(Scan(s, expected).rest, expected)
  {
    hide Scan, ExpectsAfter;
  }

  lemma SlashOpens(ps: seq<Piece>, t: Token)
    requires AllRegular(ps)
    ensures Led([t], Lex(RegexText(ps), true)) == Some([t, Regex("/" + PiecesText(ps) + "/")])
  {
    hide Scan, Lex, PiecesText, AllRegular, ExpectsAfter;
    var s := RegexText(ps);
    RegexFound(s, ps);
    LexFound(s, true);
    LexNothing(ExpectsAfter(Regex(s), true));
    assert s[|s|..] == "";
    assert [t] + ([Regex(s)] + []) == [t, Regex(s)];
  }

  lemma SlashDivides(ps: seq<Piece>, t: Token)
    ensures
      var inner := PiecesText(ps);
      var all := Led([t], Lex(RegexText(ps), false));
      && (inner == "" || inner[0] != '=' ==> all == Led([t, Op("/")], Lex(inner + "/", true)))
      && (inner != "" && inner[0] == '=' ==> all == Led([t, Op("/=")], Lex(inner[1..] + "/", true)))
  {
    hide Lex, PiecesText, Scan, ExpectsAfter, Led;
    var inner, s := PiecesText(ps), RegexText(ps);
    DivisionFound(s);
    LexFound(s, false);
    if inner != "" && inner[0] == '=' {
      assert s[2..] == inner[1..] + "/";
      DividesOn(t, "/=", s[2..]);
    } else {
      assert s[1..] == inner + "/";
      DividesOn(t, "/", s[1..]);
    }
  }

  lemma DividesOn(t: Token, op: string, rest: string)
    requires op == "/" || op == "/="
    ensures Led([t], Led([Op(op)], Lex(rest, ExpectsAfter(Op(op), false)))) == Led([t, Op(op)], Lex(rest, true))
  {
    hide Lex;
    assert ExpectsAfter(Op(op), false);
    hide ExpectsAfter;
    var more := Lex(rest, true);
    assert more.Some? ==> [t] + ([Op(op)] + more.value) == [t, Op(op)] + more.value;
  }

  lemma DivisionFound(s: string)
    requires s != "" && s[0] == '/'
    ensures Scan(s, false) == if |s| > 1 && s[1] == '=' then Found(Op("/="), s[2..]) else Found(Op("/"), s[1..])
  {
    hide RegexRun, StringRun, WordRun, NumberRun, BlankRun, CommentRun, IsKeyword, IsPunctuation, IsPair;
  }

  /** The scanner's choice after a token is what the tables say of the token's text. */
  lemma AsksForOperand(s: string, expected: bool)
    requires Scan(s, expected).Found? && Scan(s, expected).rest == ""
    ensures ExpectsAfter(Scan(s, expected).token, expected) == Opens(s, expected)
  {
    hide Scan, ExpectsAfter, Opens, IsLetter, ScansAsDigit, WordToken;
    var t := Scan(s, expected).token;
    TokenPiece(s, expected);
    assert s == t.text;
    KindOf(s, expected);
    if t.Op? {
      OperatorAsks(s, expected);
    } else if IsLetter(s[0]) {
      WordAsks(s, expected);
    } else {
      LiteralAsks(t, expected);
    }
  }

  lemma KindOf(s: string, expected: bool)
    requires Scan(s, expected).Found? && Scan(s, expected).rest == ""
    ensures
      var t := Scan(s, expected).token;
      && s != ""
      && (t.Op? <==> !IsLetter(s[0]) && !ScansAsDigit(s[0]) && s[0] != '"' && !(s[0] == '/' && expected))
      && (IsLetter(s[0]) ==> t == WordToken(s))
      && (!t.Op? && !IsLetter(s[0]) ==> t.Number? || t.Str? || t.Regex?)
      && (s[0] == '/' && expected ==> |s| > 1 && s != "/=")
  {
    hide Scan, IsLetter, ScansAsDigit, WordRun, NumberRun, IsKeyword, IsBlank;
    TokenPiece(s, expected);
    SignsAreSigns();
    if IsLetter(s[0]) {
      WordScan(s, expected);
      assert WordRun(s) == |s| && s[..|s|] == s;
    } else if ScansAsDigit(s[0]) {
      NumberScan(s, expected);
    } else {
      SignKind(s, expected);
    }
  }

  lemma SignsAreSigns()
    ensures !IsLetter('/') && !IsLetter('"') && !ScansAsDigit('/') && !ScansAsDigit('"')
    ensures forall c :: !(IsLetter(c) && ScansAsDigit(c))
  {
  }

  lemma SignKind(s: string, expected: bool)
    requires Scan(s, expected).Found? && Scan(s, expected).rest == "" && s != ""
      && !IsLetter(s[0]) && !ScansAsDigit(s[0])
    ensures
      var t := Scan(s, expected).token;
      if s[0] == '"' then t.Str? else if s[0] == '/' && expected then t.Regex? && |s| > 1 && s != "/=" else t.Op?
  {
    assert RegexRun("=", false, false) == None;
    assert s == "/=" ==> s[1..] == "=";
    hide IsLetter, ScansAsDigit, IsKeyword, BlankRun, CommentRun, NumberRun, StringRun, RegexRun, WordRun;
  }

  lemma OperatorAsks(s: string, expected: bool)
    requires s != "" && !IsLetter(s[0])
    ensures ExpectsAfter(Op(s), expected) == Opens(s, expected)
  {
  }

  lemma WordAsks(s: string, expected: bool)
    requires s != "" && IsLetter(s[0])
    ensures ExpectsAfter(WordToken(s), expected) == Opens(s, expected)
  {
  }

  lemma LiteralAsks(t: Token, expected: bool)
    requires t.Number? || t.Str? || t.Regex?
    requires t.text != ""
      && (ScansAsDigit(t.text[0]) || t.text[0] == '"' || (t.text[0] == '/' && |t.text| > 1 && t.text != "/="))
    ensures ExpectsAfter(t, expected) == Opens(t.text, expected)
  {
  }

  // ----- Words, numbers, operators, and what is passed over -----

  predicate Letter(c: char) {
    'A' <= c <= 'Z' || 'a' <= c <= 'z' || c == '_' || (c > '\U{007F}' && LETTERS_BEYOND(c))
  }

  predicate Digit(c: char) {
    '0' <= c <= '9' || (c > '\U{007F}' && DIGITS_BEYOND(c) && !LETTERS_BEYOND(c))
  }

  predicate WordPart(c: char) {
    Letter(c) || Digit(c) || (c > '\U{007F}' && NUMERALS_BEYOND(c))
  }

  predicate NumberPart(c: char) {
    Digit(c) || c == '.'
  }

  predicate Blank(c: char) {
    c in BLANKS
  }

  const BLANKS := {' ', '\t', '\r', '\U{000B}', '\U{000C}'}

  /** Nothing comes after, or a character that does not go on with the word or the number. */
  predicate Stops(tail: string, on: char -> bool) {
    tail == "" || !on(tail[0])
  }

  predicate All(s: string, on: char -> bool) {
    forall c :: c in s ==> on(c)
  }

  lemma {:induction false} WordEnds(w: string, tail: string)
    requires All(w, WordPart) && Stops(tail, WordPart)
    ensures WordRun(w + tail) == |w|
  {
    if w == "" {
      assert w + tail == tail;
    } else {
      assert (w + tail)[1..] == w[1..] + tail && w[0] in w;
      WordEnds(w[1..], tail);
    }
  }

  /** Letters and digits that begin with a letter are one word, and just those in the table are keywords. */
  lemma Words(w: string, tail: string, expected: bool)
    requires w != "" && Letter(w[0]) && All(w, WordPart) && Stops(tail, WordPart)
    ensures Scan(w + tail, expected) == Found(if w in WORDS then Keyword(w) else Ident(w), tail)
  {
    hide Scan, All, Stops;
    WordEnds(w, tail);
    WordScan(w + tail, expected);
    assert (w + tail)[..|w|] == w && (w + tail)[|w|..] == tail;
    Listed(w);
  }

  lemma Listed(w: string)
    ensures IsKeyword(w) <==> w in WORDS
  {
  }

  lemma {:induction false} DigitsEnd(ds: string, pointSeen: bool, tail: string)
    requires All(ds, Digit) && Stops(tail, if pointSeen then Digit else NumberPart)
    ensures NumberRun(ds + tail, pointSeen) == |ds|
  {
    if ds == "" {
      assert ds + tail == tail;
    } else {
      assert (ds + tail)[1..] == ds[1..] + tail && ds[0] in ds;
      DigitsEnd(ds[1..], pointSeen, tail);
    }
  }

  lemma {:induction false} PointEnds(ds: string, fraction: string, tail: string)
    requires All(ds, Digit) && All(fraction, Digit) && Stops(tail, Digit)
    ensures NumberRun(ds + ("." + fraction + tail), false) == |ds| + 1 + |fraction|
  {
    if ds == "" {
      assert ds + ("." + fraction + tail) == "." + (fraction + tail);
      assert ("." + (fraction + tail))[1..] == fraction + tail;
      DigitsEnd(fraction, true, tail);
    } else {
      assert (ds + ("." + fraction + tail))[1..] == ds[1..] + ("." + fraction + tail) && ds[0] in ds;
      PointEnds(ds[1..], fraction, tail);
    }
  }

  /** A number is digits, with at most one point after the first of them. */
  lemma Numbers(ds: string, fraction: string, tail: string, expected: bool)
    requires ds != "" && All(ds, Digit) && All(fraction, Digit)
    ensures Stops(tail, NumberPart) ==> Scan(ds + tail, expected) == Found(Number(ds), tail)
    ensures Stops(tail, Digit) ==>
      Scan(ds + "." + fraction + tail, expected) == Found(Number(ds + "." + fraction), tail)
  {
    hide Scan;
    assert ds[0] in ds;
    if Stops(tail, NumberPart) {
      DigitsEnd(ds, false, tail);
      NumberFound(ds, tail, expected);
    }
    if Stops(tail, Digit) {
      PointEnds(ds, fraction, tail);
      assert ds + ("." + fraction + tail) == (ds + "." + fraction) + tail == ds + "." + fraction + tail;
      NumberFound(ds + "." + fraction, tail, expected);
    }
  }

  lemma NumberFound(number: string, tail: string, expected: bool)
    requires number != "" && Digit(number[0]) && NumberRun(number + tail, false) == |number|
    ensures Scan(number + tail, expected) == Found(Number(number), tail)
  {
    hide Scan, NumberRun;
    var s := number + tail;
    assert s[0] == number[0] && s[..|number|] == number && s[|number|..] == tail;
    NumberScan(s, expected);
  }

  /** The longer operator is taken, where a slash is not the beginning of a regular expression. */
  lemma Operators(s: string, expected: bool)
    requires s != "" && (s[0] == '/' ==> !expected)
    ensures |s| > 1 && s[..2] in OPERATORS ==> Scan(s, expected) == Found(Op(s[..2]), s[2..])
    ensures (|s| == 1 || s[..2] !in OPERATORS) && s[..1] in OPERATORS ==> Scan(s, expected) == Found(Op(s[..1]), s[1..])
  {
    hide RegexRun, StringRun, WordRun, NumberRun, BlankRun, CommentRun, IsKeyword, IsPair, IsPunctuation, IsBlank;
    hide IsLetter, ScansAsDigit;
    assert s[..1] == [s[0]] && (|s| > 1 ==> s[..2] == [s[0], s[1]]);
    if |s| > 1 { Pairs(s[0], s[1]); }
    Singles(s[0]);
  }

  lemma Pairs(c: char, d: char)
    ensures [c, d] in OPERATORS <==> IsPair(c, d) || (c == '/' && d == '=')
    ensures [c, d] in OPERATORS ==> !IsBlank(c) && c !in {'\n', '#', '\\'}
  {
  }

  lemma Singles(c: char)
    ensures [c] in OPERATORS <==> IsPunctuation(c) || c == '/' || c == '\n'
    ensures [c] in OPERATORS ==> !IsBlank(c) && c !in {'#', '\\'}
  {
  }

  lemma {:induction false} BlanksEnd(bs: string, tail: string)
    requires All(bs, Blank) && (tail == "" || tail[0] !in BLANKS)
    ensures BlankRun(bs + tail) == |bs|
  {
    if bs == "" {
      assert bs + tail == tail;
    } else {
      assert (bs + tail)[1..] == bs[1..] + tail && bs[0] in bs;
      BlanksEnd(bs[1..], tail);
    }
  }

  lemma {:induction false} CommentEndsAt(cs: string, tail: string)
    requires '\n' !in cs && (tail == "" || tail[0] == '\n')
    ensures CommentRun(cs + tail) == |cs|
  {
    if cs == "" {
      assert cs + tail == tail;
    } else {
      assert (cs + tail)[1..] == cs[1..] + tail && cs[0] in cs;
      CommentEndsAt(cs[1..], tail);
    }
  }

  /** Blanks, comments up to the end of the line, and a backslash at the end of a line are passed over. */
  lemma PassedOver(s: string, tail: string, expected: bool)
    ensures s != "" && All(s, Blank) && (tail == "" || tail[0] !in BLANKS) ==>
      Scan(s + tail, expected) == Skipped(tail)
    ensures s != "" && s[0] == '#' && '\n' !in s && (tail == "" || tail[0] == '\n') ==>
      Scan(s + tail, expected) == Skipped(tail)
    ensures s == "\\\n" ==> Scan(s + tail, expected) == Skipped(tail)
  {
    hide RegexRun, StringRun, WordRun, NumberRun, BlankRun, CommentRun, IsKeyword, IsPunctuation, IsPair;
    assert (s + tail)[|s|..] == tail;
    if s != "" && All(s, Blank) && (tail == "" || tail[0] !in BLANKS) {
      assert s[0] in s;
      BlanksEnd(s, tail);
    }
    if s != "" && s[0] == '#' && '\n' !in s && (tail == "" || tail[0] == '\n') { CommentEndsAt(s, tail); }
  }

  /** No other character begins anything. */
  lemma NothingElse(s: string, expected: bool)
    requires s != "" && s[0] !in BLANKS && !Letter(s[0]) && !Digit(s[0])
    requires s[0] != '"' && s[0] != '#' && s[0] != '/' && s[..1] !in OPERATORS && (|s| > 1 ==> s[..2] !in OPERATORS)
    requires |s| > 1 && s[0] == '\\' ==> s[1] != '\n'
    ensures Scan(s, expected) == Failed
  {
    assert s[..1] == [s[0]] && (|s| > 1 ==> s[..2] == [s[0], s[1]]);
    hide RegexRun, StringRun, WordRun, NumberRun, BlankRun, CommentRun, IsKeyword, IsPair, IsPunctuation;
    if |s| > 1 { Pairs(s[0], s[1]); }
    Singles(s[0]);
  }
}

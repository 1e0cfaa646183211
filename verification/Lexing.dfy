/** The tokens of a program text as a function of the text: what each character begins, and when
    `/` opens a regular expression. Lexing the tokens' own texts, joined by single spaces, gives
    the same tokens. */
module Lexing {
  import opened Options
  import opened Texts

  /** A word that is a keyword has its kind in its text, as has every operator. */
  datatype Token = Keyword(text: string) | Ident(text: string) | Number(text: string) | Str(text: string)
    | Regex(text: string) | Op(text: string)

  const NEWLINE := Op("\n")

  // ----- Characters and fixed texts -----

  predicate IsBlank(c: char) {
    c == ' ' || c == '\t' || c == '\r' || c == '\U{000B}' || c == '\U{000C}'
  }

  /** Which characters beyond ASCII are letters, digits, or other numerals is for the tables of
      Unicode to say. Any tables will do; no character is both a letter and a digit. */
  const LETTERS_BEYOND: char -> bool
  const DIGITS_BEYOND: char -> bool
  const NUMERALS_BEYOND: char -> bool

  predicate BeyondAscii(c: char) {
    c >= '\U{0080}'
  }

  predicate IsLetter(c: char) {
    'a' <= c <= 'z' || 'A' <= c <= 'Z' || c == '_' || (BeyondAscii(c) && LETTERS_BEYOND(c))
  }

  predicate ScansAsDigit(c: char) {
    IsDigit(c) || (BeyondAscii(c) && DIGITS_BEYOND(c) && !LETTERS_BEYOND(c))
  }

  predicate IsWordPart(c: char) {
    IsLetter(c) || ScansAsDigit(c) || (BeyondAscii(c) && NUMERALS_BEYOND(c))
  }

  predicate IsKeyword(s: string) {
    s in {"BEGIN", "break", "continue", "delete", "do", "END", "else", "exit", "for", "function",
        "if", "in", "next", "nextfile",
          "print", "printf", "return", "while"}
  }

  predicate IsPunctuation(c: char) {
    c in {'<', '>', '|', '+', '-', '*', '%', '^', '!', '~', '$', '=', '?', ':', '{', '}', '(', ')', '[', ']', ',', ';'}
  }

  /** Operators of two characters, but for the one that begins with `/`. */
  predicate IsPair(c: char, d: char) {
    match c
    case '<' => d == '='
    case '>' => d == '=' || d == '>'
    case '=' => d == '='
    case '!' => d == '=' || d == '~'
    case '|' => d == '|'
    case '&' => d == '&'
    case '+' => d == '=' || d == '+'
    case '-' => d == '=' || d == '-'
    case '*' => d == '='
    case '%' => d == '='
    case '^' => d == '='
    case _ => false
  }

  /** Whether an operand may come after the token; increments and decrements change nothing. */
  function ExpectsAfter(t: Token, expected: bool): bool {
    match t
    case Keyword(s) => s in {"do", "else", "exit", "if", "in", "print", "printf", "return"}
    case Op(s) =>
      if s == "++" || s == "--" then expected
      else s in {"&&", "!", "^", ":", ",", "$", "=", "==", ">", ">=", "{", "[", "<", "<=", "(",
          "~", "-", "\n", "!=", "!~", "||", "%",
                 "+", "+=", "-=", "*=", "/=", "%=", "^=", "?", ";", "/", "*"}
    case _ => false
  }

  // ----- Runs of characters -----

  function BlankRun(s: string): (n: nat)
    ensures n <= |s|
  {
    if s == "" || !IsBlank(s[0]) then 0 else 1 + BlankRun(s[1..])
  }

  function CommentRun(s: string): (n: nat)
    ensures n <= |s|
  {
    if s == "" || s[0] == '\n' then 0 else 1 + CommentRun(s[1..])
  }

  function WordRun(s: string): (n: nat)
    ensures n <= |s|
  {
    if s == "" || !IsWordPart(s[0]) then 0 else 1 + WordRun(s[1..])
  }

  /** Digits with at most one point among them. */
  function NumberRun(s: string, pointSeen: bool): (n: nat)
    ensures n <= |s|
  {
    if s == "" then 0
    else if ScansAsDigit(s[0]) then 1 + NumberRun(s[1..], pointSeen)
    else if s[0] == '.' && !pointSeen then 1 + NumberRun(s[1..], true)
    else 0
  }

  /** The length of the rest of a string literal, its closing quote included. */
  function StringRun(s: string, escaped: bool): (r: Option<nat>)
    ensures r.Some? ==> 0 < r.value <= |s|
  {
    if s == "" || (s[0] == '\n' && !escaped) then None
    else if !escaped && s[0] == '"' then Some(1)
    else
      var more :- StringRun(s[1..], !escaped && s[0] == '\\');
      Some(more + 1)
  }

  /** The length of the rest of a regular expression; inside a class `/` is an ordinary character. */
  function RegexRun(s: string, escaped: bool, inClass: bool): (r: Option<nat>)
    ensures r.Some? ==> 0 < r.value <= |s|
  {
    if s == "" || (s[0] == '\n' && !escaped) then None
    else if !escaped && s[0] == '/' && !inClass then Some(1)
    else
      var more :- RegexRun(s[1..], !escaped && s[0] == '\\', ClassAfter(s[0], escaped, inClass));
      Some(more + 1)
  }

  predicate ClassAfter(c: char, escaped: bool, inClass: bool) {
    if escaped || c == '\\' then inClass
    else if c == '[' then true
    else if c == ']' then false
    else inClass
  }

  // ----- One step of the scanner -----

  datatype Scanned = End | Failed | Skipped(rest: string) | Found(token: Token, rest: string)

  function Scan(s: string, expected: bool): (r: Scanned)
    ensures r.Skipped? || r.Found? ==> |r.rest| < |s|
  {
    if s == "" then End
    else if IsBlank(s[0]) then Skipped(s[BlankRun(s)..])
    else if s[0] == '\\' && |s| > 1 && s[1] == '\n' then Skipped(s[2..])
    else if s[0] == '\n' then Found(NEWLINE, s[1..])
    else if s[0] == '#' then Skipped(s[CommentRun(s)..])
    else if s[0] == '/' then
      if !expected then (if |s| > 1 && s[1] == '=' then Found(Op("/="), s[2..]) else Found(Op("/"), s[1..]))
      else
        var n := RegexRun(s[1..], false, false);
        if n.None? then Failed else Found(Regex(s[..n.value + 1]), s[n.value + 1..])
    else if |s| > 1 && IsPair(s[0], s[1]) then Found(Op(s[..2]), s[2..])
    else if IsPunctuation(s[0]) then Found(Op(s[..1]), s[1..])
    else if s[0] == '"' then
      var n := StringRun(s[1..], false);
      if n.None? then Failed else Found(Str(s[..n.value + 1]), s[n.value + 1..])
    else if IsLetter(s[0]) then
      var n := WordRun(s);
      Found(WordToken(s[..n]), s[n..])
    else if ScansAsDigit(s[0]) then
      var n := NumberRun(s, false);
      Found(Number(s[..n]), s[n..])
    else Failed
  }

  function Lex(s: string, expected: bool): Option<seq<Token>>
    decreases |s|
  {
    match Scan(s, expected)
    case End => Some([])
    case Failed => None
    case Skipped(rest) => Lex(rest, expected)
    case Found(t, rest) =>
      var more :- Lex(rest, ExpectsAfter(t, expected));
      Some([t] + more)
  }

  // ----- Lexing again -----

  function Spaced(tokens: seq<Token>): string {
    if tokens == [] then "" else if |tokens| == 1 then tokens[0].text else tokens[0].text + " " + Spaced(tokens[1..])
  }

  /** Nothing, or a space, comes after. */
  predicate Ends(tail: string) {
    tail == "" || tail[0] == ' '
  }

  lemma FrontTail(s: string, n: nat, tail: string)
    requires 0 < n <= |s|
    ensures (s[..n] + tail)[0] == s[0] && (s[..n] + tail)[1..] == s[1..][..n - 1] + tail
  {
  }

  lemma {:induction false} WordAgain(s: string, tail: string)
    requires Ends(tail)
    ensures WordRun(s[..WordRun(s)] + tail) == WordRun(s)
  {
    var n := WordRun(s);
    if n > 0 {
      WordAgain(s[1..], tail);
      FrontTail(s, n, tail);
    } else {
      assert s[..0] + tail == tail;
    }
  }

  lemma {:induction false} NumberAgain(s: string, pointSeen: bool, tail: string)
    requires Ends(tail)
    ensures NumberRun(s[..NumberRun(s, pointSeen)] + tail, pointSeen) == NumberRun(s, pointSeen)
  {
    var n := NumberRun(s, pointSeen);
    if n > 0 {
      NumberAgain(s[1..], pointSeen || s[0] == '.', tail);
      FrontTail(s, n, tail);
    } else {
      assert s[..0] + tail == tail;
    }
  }

  lemma {:induction false} StringAgain(s: string, escaped: bool, tail: string)
    requires StringRun(s, escaped).Some?
    ensures StringRun(s[..StringRun(s, escaped).value] + tail, escaped) == StringRun(s, escaped)
  {
    var n := StringRun(s, escaped).value;
    FrontTail(s, n, tail);
    if escaped || s[0] != '"' {
      StringAgain(s[1..], !escaped && s[0] == '\\', tail);
    }
  }

  lemma {:induction false} RegexAgain(s: string, escaped: bool, inClass: bool, tail: string)
    requires RegexRun(s, escaped, inClass).Some?
    ensures RegexRun(s[..RegexRun(s, escaped, inClass).value] + tail, escaped, inClass) == RegexRun(s, escaped, inClass)
  {
    hide ClassAfter;
    var n := RegexRun(s, escaped, inClass).value;
    FrontTail(s, n, tail);
    if escaped || s[0] != '/' || inClass {
      RegexAgain(s[1..], !escaped && s[0] == '\\', ClassAfter(s[0], escaped, inClass), tail);
    }
  }

  /** The token's own text is scanned as that token again. */
  ghost predicate Again(s: string, expected: bool, tail: string)
    requires Scan(s, expected).Found?
  {
    var t := Scan(s, expected).token;
    Scan(t.text + tail, expected) == Found(t, tail) && t.text != "" && !IsBlank(t.text[0])
  }

  lemma LiteralAgain(s: string, expected: bool, tail: string)
    requires Scan(s, expected).Found? && ((s[0] == '/' && expected) || s[0] == '"')
    ensures Again(s, expected, tail)
  {
    hide RegexRun, StringRun, WordRun, NumberRun, IsKeyword;
    if s[0] == '"' {
      StringAgain(s[1..], false, tail);
      SameRun(s, StringRun(s[1..], false).value, tail);
    } else {
      RegexAgain(s[1..], false, false, tail);
      SameRun(s, RegexRun(s[1..], false, false).value, tail);
    }
  }

  function WordToken(text: string): Token {
    if IsKeyword(text) then Keyword(text) else Ident(text)
  }

  lemma PlainCharacter(c: char)
    requires IsWordPart(c)
    ensures !IsBlank(c) && !IsPunctuation(c) && forall d :: !IsPair(c, d)
  {
  }

  lemma WordScan(s: string, expected: bool)
    requires s != "" && IsLetter(s[0])
    ensures Scan(s, expected) == Found(WordToken(s[..WordRun(s)]), s[WordRun(s)..]) && WordRun(s) > 0 && !IsBlank(s[0])
  {
    PlainCharacter(s[0]);
    assert WordRun(s) > 0;
    hide RegexRun, StringRun, NumberRun, WordRun, IsKeyword, IsBlank, IsPunctuation, IsPair;
  }

  lemma NumberScan(s: string, expected: bool)
    requires s != "" && ScansAsDigit(s[0])
    ensures Scan(s, expected) == Found(Number(s[..NumberRun(s, false)]), s[NumberRun(s, false)..])
      && NumberRun(s, false) > 0 && !IsBlank(s[0])
  {
    PlainCharacter(s[0]);
    assert NumberRun(s, false) > 0;
    hide RegexRun, StringRun, NumberRun, WordRun, IsKeyword, IsBlank, IsPunctuation, IsPair;
  }

  lemma RunAgain(s: string, expected: bool, tail: string)
    requires Scan(s, expected).Found? && Ends(tail) && (IsLetter(s[0]) || ScansAsDigit(s[0]))
    ensures Again(s, expected, tail)
  {
    hide Scan, WordRun, NumberRun, IsKeyword, IsBlank;
    if IsLetter(s[0]) {
      var n := WordRun(s);
      WordScan(s, expected);
      WordAgain(s, tail);
      WholeRun(s, n, tail);
      WordScan(s[..n] + tail, expected);
    } else {
      var n := NumberRun(s, false);
      NumberScan(s, expected);
      NumberAgain(s, false, tail);
      WholeRun(s, n, tail);
      NumberScan(s[..n] + tail, expected);
    }
  }

  lemma ScannedAgain(s: string, expected: bool, tail: string)
    requires Scan(s, expected).Found? && Ends(tail)
    ensures Again(s, expected, tail)
  {
    if (s[0] == '/' && expected) || s[0] == '"' {
      LiteralAgain(s, expected, tail);
    } else if IsLetter(s[0]) || ScansAsDigit(s[0]) {
      RunAgain(s, expected, tail);
    } else {
      OperatorAgain(s, expected, tail);
    }
  }

  lemma SameRun(s: string, n: nat, tail: string)
    requires n < |s|
    ensures
      var t := s[..n + 1] + tail;
      t[0] == s[0] && t[1..] == s[1..][..n] + tail && t[..n + 1] == s[..n + 1] && t[n + 1..] == tail
  {
  }

  lemma WholeRun(s: string, n: nat, tail: string)
    requires 0 < n <= |s|
    ensures
      var t := s[..n] + tail;
      t[0] == s[0] && t[..n] == s[..n] && t[n..] == tail
  {
  }

  lemma OperatorAgain(s: string, expected: bool, tail: string)
    requires Scan(s, expected).Found? && Scan(s, expected).token.Op? && Ends(tail)
    ensures Again(s, expected, tail)
  {
    hide RegexRun, StringRun, WordRun, NumberRun;
    var o := Scan(s, expected).token.text;
    var again := o + tail;
    assert again[..|o|] == o && again[|o|..] == tail;
    assert |o| == 1 && |again| > 1 ==> again[1] == ' ';
  }

  lemma {:induction false} SpaceSkipped(s: string, expected: bool)
    requires s == "" || !IsBlank(s[0])
    ensures Scan(" " + s, expected) == Skipped(s)
  {
    assert (" " + s)[1..] == s;
    assert BlankRun(s) == 0;
  }

  /** Re-lexing is stable: for every text that lexes, the texts of its tokens joined by single
      spaces lex to the same tokens, regular expressions and divisions included. */
  lemma {:induction false} Relexes(s: string, expected: bool)
    requires Lex(s, expected).Some?
    ensures Lex(Spaced(Lex(s, expected).value), expected) == Lex(s, expected)
    ensures var spaced := Spaced(Lex(s, expected).value); spaced == "" || !IsBlank(spaced[0])
    decreases |s|
  {
    hide Scan;
    match Scan(s, expected)
    case End => LexNothing(expected);
    case Skipped(rest) => Relexes(rest, expected);
    case Found(t, rest) =>
      var more := Lex(rest, ExpectsAfter(t, expected)).value;
      var spaced := Spaced(more);
      assert ([t] + more)[1..] == more;
      Relexes(rest, ExpectsAfter(t, expected));
      if more == [] {
        ScannedAgain(s, expected, "");
        assert t.text + "" == t.text;
        LexNothing(ExpectsAfter(t, expected));
      } else {
        ScannedAgain(s, expected, " " + spaced);
        SpaceSkipped(spaced, ExpectsAfter(t, expected));
        assert Spaced([t] + more) == t.text + (" " + spaced);
      }
  }

  lemma LexNothing(expected: bool)
    ensures Lex("", expected) == Some([]) && Scan("", expected) == End
  {
  }

  // ----- What lies between tokens -----

  /** Blanks, lines that go on, and comments, which end at the end of their line. */
  predicate Trivial(s: string) {
    || s == ""
    || (IsBlank(s[0]) && Trivial(s[1..]))
    || (|s| > 1 && s[0] == '\\' && s[1] == '\n' && Trivial(s[2..]))
    || (s[0] == '#' && '\n' !in s)
  }

  /** The texts before each token and after the last. */
  function Between(s: string, expected: bool): (gaps: seq<string>)
    requires Lex(s, expected).Some?
    ensures |gaps| == |Lex(s, expected).value| + 1
    decreases |s|
  {
    match Scan(s, expected)
    case End => [""]
    case Skipped(rest) =>
      var gaps := Between(rest, expected);
      [s[..|s| - |rest|] + gaps[0]] + gaps[1..]
    case Found(t, rest) => [""] + Between(rest, ExpectsAfter(t, expected))
  }

  function TextsOf(tokens: seq<Token>): (texts: seq<string>)
    ensures |texts| == |tokens|
  {
    seq(|tokens|, i requires 0 <= i < |tokens| => tokens[i].text)
  }

  /** Nothing is lost: the tokens' texts with what lies between them make up the program text, and
      only blanks, continued lines and comments lie between them. */
  lemma {:induction false} TokensAreTheText(s: string, expected: bool)
    requires Lex(s, expected).Some?
    ensures Woven(Between(s, expected), TextsOf(Lex(s, expected).value)) == s
    ensures forall g :: g in Between(s, expected) ==> Trivial(g)
    ensures s != "" && s[0] == '\n' ==> Between(s, expected)[0] == ""
    decreases |s|
  {
    hide Scan, Trivial, Woven, TextsOf;
    match Scan(s, expected)
    case End =>
      NoText(s, expected);
      TextsStart(NEWLINE, []);
      WovenNone("");
      TrivialNone();
    case Skipped(rest) =>
      var gaps, texts, piece := Between(rest, expected), TextsOf(Lex(s, expected).value), s[..|s| - |rest|];
      TokensAreTheText(rest, expected);
      WovenBegins(gaps, texts);
      SkippedPiece(s, expected, gaps[0]);
      assert gaps == [gaps[0]] + gaps[1..];
      WovenMore(piece, gaps[0], gaps[1..], texts);
    case Found(t, rest) =>
      var next := ExpectsAfter(t, expected);
      TokensAreTheText(rest, next);
      TokenPiece(s, expected);
      TextsStart(t, Lex(rest, next).value);
      WovenStart("", Between(rest, next), t.text, TextsOf(Lex(rest, next).value));
      assert "" + t.text == t.text;
      TrivialNone();
  }

  lemma NoText(s: string, expected: bool)
    requires Scan(s, expected) == End
    ensures s == ""
  {
  }

  lemma TrivialNone()
    ensures Trivial("")
  {
  }

  lemma TextsStart(t: Token, tokens: seq<Token>)
    ensures TextsOf([]) == [] && TextsOf([t] + tokens) == [t.text] + TextsOf(tokens)
  {
  }

  lemma TokenPiece(s: string, expected: bool)
    requires Scan(s, expected).Found?
    ensures s == Scan(s, expected).token.text + Scan(s, expected).rest && s != ""
  {
    hide Scan;
    var n := TokenLength(s, expected);
    assert s == s[..n] + s[n..];
  }

  /** A token is the beginning of the text, and what remains is the rest of it. */
  lemma TokenLength(s: string, expected: bool) returns (n: nat)
    requires Scan(s, expected).Found?
    ensures 0 < |s| && n <= |s| && Scan(s, expected).token.text == s[..n] && Scan(s, expected).rest == s[n..]
  {
    hide RegexRun, StringRun, WordRun, NumberRun, BlankRun, CommentRun, IsKeyword, IsPunctuation, IsPair, IsBlank;
    hide IsLetter, ScansAsDigit;
    if s[0] == '\n' || (s[0] == '/' && !expected) {
      FirstSymbol(s);
      n := if s[0] == '/' && |s| > 1 && s[1] == '=' then 2 else 1;
    } else if s[0] == '/' {
      n := RegexRun(s[1..], false, false).value + 1;
    } else if |s| > 1 && IsPair(s[0], s[1]) {
      n := 2;
    } else if IsPunctuation(s[0]) {
      n := 1;
    } else if s[0] == '"' {
      n := StringRun(s[1..], false).value + 1;
    } else if IsLetter(s[0]) {
      n := WordRun(s);
    } else {
      n := NumberRun(s, false);
    }
  }

  lemma FirstSymbol(s: string)
    ensures s != "" && s[0] == '/' ==> s[..1] == "/"
    ensures s != "" && s[0] == '\n' ==> s[..1] == "\n"
    ensures |s| > 1 && s[0] == '/' && s[1] == '=' ==> s[..2] == "/="
  {
  }

  /** A stretch passed over, with a gap after it: a comment has none, as its line ends there. */
  lemma SkippedPiece(s: string, expected: bool, gap: string)
    requires Scan(s, expected).Skipped? && Trivial(gap)
    requires var rest := Scan(s, expected).rest; rest != "" && rest[0] == '\n' ==> gap == ""
    requires gap <= Scan(s, expected).rest
    ensures
      var piece := s[..|s| - |Scan(s, expected).rest|];
      Trivial(piece + gap) && s == piece + Scan(s, expected).rest && s != "" && s[0] != '\n'
  {
    hide Scan, Trivial, BlankRun, CommentRun;
    SkippedIs(s, expected);
    if IsBlank(s[0]) {
      BlanksAreTrivial(s, gap);
    } else if s[0] == '#' {
      CommentIsTrivial(s, gap);
    } else {
      ContinuationIsTrivial(s, gap);
    }
  }

  /** What the scanner passes over: blanks, a comment, or a backslash with a newline. */
  lemma SkippedIs(s: string, expected: bool)
    requires Scan(s, expected).Skipped?
    ensures s != "" && (IsBlank(s[0]) || s[0] != '\n')
    ensures IsBlank(s[0]) ==> Scan(s, expected) == Skipped(s[BlankRun(s)..])
    ensures !IsBlank(s[0]) && s[0] == '#' ==> Scan(s, expected) == Skipped(s[CommentRun(s)..])
    ensures !IsBlank(s[0]) && s[0] != '#' ==>
      |s| > 1 && s[0] == '\\' && s[1] == '\n' && Scan(s, expected) == Skipped(s[2..])
  {
    hide RegexRun, StringRun, WordRun, NumberRun, BlankRun, CommentRun, IsKeyword, IsPunctuation, IsPair;
    hide IsLetter, ScansAsDigit, IsBlank, WordToken;
  }

  lemma CommentIsTrivial(s: string, gap: string)
    requires s != "" && s[0] == '#' && gap <= s[CommentRun(s)..]
    requires var rest := s[CommentRun(s)..]; rest != "" && rest[0] == '\n' ==> gap == ""
    ensures Trivial(s[..CommentRun(s)] + gap)
  {
    hide CommentRun;
    CommentEnds(s);
    CommentStarts(s);
    assert gap == "" && s[..CommentRun(s)] + gap == s[..CommentRun(s)];
  }

  lemma ContinuationIsTrivial(s: string, gap: string)
    requires |s| > 1 && s[0] == '\\' && s[1] == '\n' && Trivial(gap)
    ensures Trivial(s[..2] + gap)
  {
    assert (s[..2] + gap)[2..] == gap;
  }

  lemma CommentStarts(s: string)
    requires s != "" && s[0] == '#'
    ensures CommentRun(s) > 0
  {
  }

  lemma {:induction false} CommentEnds(s: string)
    ensures '\n' !in s[..CommentRun(s)] && (CommentRun(s) < |s| ==> s[CommentRun(s)] == '\n')
  {
    if s != "" && s[0] != '\n' {
      CommentEnds(s[1..]);
      assert s[..CommentRun(s)] == [s[0]] + s[1..][..CommentRun(s[1..])];
    }
  }

  lemma {:induction false} BlanksAreTrivial(s: string, gap: string)
    requires Trivial(gap)
    ensures Trivial(s[..BlankRun(s)] + gap)
  {
    var n := BlankRun(s);
    if n > 0 {
      BlanksAreTrivial(s[1..], gap);
      assert (s[..n] + gap)[1..] == s[1..][..n - 1] + gap;
    } else {
      assert s[..0] + gap == gap;
    }
  }
}

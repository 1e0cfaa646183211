/** The scanner as the program runs it: a cursor over the files, and a flag that says whether the
    next `/` opens a regular expression. It is proved to find the tokens of the one text the files
    make. */
module Lexer {
  import opened Options
  import opened Texts
  import opened Lexing
  import SC = SourceCursor

  /** What the scanner returns for one step. */
  datatype Step = AtEnd | Error | Trivia | Got(token: Token)

  /** The character `n` places on, if there is one. */
  function Ahead(s: string, n: nat): Option<char> {
    if n < |s| then Some(s[n]) else None
  }

  /** The rest of a text, one character at a time. */
  lemma Next(s: string, n: nat)
    requires n <= |s|
    ensures n < |s| ==> s[n..] != "" && s[n..][0] == s[n] && s[n..][1..] == s[n + 1..] && s[..n + 1] == s[..n] + [s[n]]
    ensures n == |s| ==> s[n..] == ""
  {
  }

  lemma ScanStarts(s: string, expected: bool)
    ensures s == "" ==> Scan(s, expected) == End
    ensures s != "" && IsBlank(s[0]) ==> Scan(s, expected) == Skipped(s[BlankRun(s)..])
  {
    hide RegexRun, StringRun, WordRun, NumberRun, CommentRun, IsPunctuation, IsPair, IsKeyword;
  }

  lemma RegexStep(s: string, escaped: bool, inClass: bool)
    ensures s == "" || (s[0] == '\n' && !escaped) ==> RegexRun(s, escaped, inClass) == None
    ensures s != "" && !escaped && s[0] == '/' && !inClass ==> RegexRun(s, escaped, inClass) == Some(1)
    ensures s != "" && !(s[0] == '\n' && !escaped) && !(!escaped && s[0] == '/' && !inClass) ==>
      RegexRun(s, escaped, inClass)
        == Further(1, RegexRun(s[1..], !escaped && s[0] == '\\', ClassAfter(s[0], escaped, inClass)))
  {
    hide ClassAfter;
  }

  lemma StringStep(s: string, escaped: bool)
    ensures s == "" || (s[0] == '\n' && !escaped) ==> StringRun(s, escaped) == None
    ensures s != "" && !escaped && s[0] == '"' ==> StringRun(s, escaped) == Some(1)
    ensures s != "" && !(s[0] == '\n' && !escaped) && !(!escaped && s[0] == '"') ==>
      StringRun(s, escaped) == Further(1, StringRun(s[1..], !escaped && s[0] == '\\'))
  {
  }

  lemma NumberStep(s: string, seenDecimal: bool)
    ensures
      var more := s != "" && (ScansAsDigit(s[0]) || (s[0] == '.' && !seenDecimal));
      NumberRun(s, seenDecimal) == if more then 1 + NumberRun(s[1..], seenDecimal || s[0] == '.') else 0
  {
  }

  class Scanner {
    const cursor: SC.Cursor
    var expectOperand: bool

    constructor (files: seq<string>)
      ensures Valid() && fresh(cursor) && cursor.Rest() == SC.Flat(files) && expectOperand
    {
      cursor := new SC.Cursor(files);
      expectOperand := true;
    }

    ghost predicate Valid()
      reads this, cursor
    {
      cursor.Valid()
    }

    /** Pass one character, known to be there. */
    method Take() returns (c: char)
      requires Valid() && cursor.Rest() != ""
      modifies cursor
      ensures Valid() && c == old(cursor.Rest())[0] && cursor.Rest() == old(cursor.Rest())[1..]
    {
      hide SC.RestAt;
      var next := cursor.Advance();
      c := next.value;
    }

    /** Pass blanks. */
    method TakeBlanks() returns (text: string)
      requires Valid()
      modifies cursor
      ensures Valid()
      ensures text == old(cursor.Rest())[..BlankRun(old(cursor.Rest()))]
        && cursor.Rest() == old(cursor.Rest())[BlankRun(old(cursor.Rest()))..]
    {
      hide SC.RestAt;
      ghost var s := cursor.Rest();
      text := "";
      var c := cursor.Peek(0);
      while c.Some? && IsBlank(c.value)
        invariant Valid() && |text| <= |s| && text == s[..|text|] && cursor.Rest() == s[|text|..]
        invariant c == Ahead(s, |text|) && |text| + BlankRun(s[|text|..]) == BlankRun(s)
        decreases |s| - |text|
      {
        Next(s, |text|);
        var d := Take();
        text := text + [d];
        c := cursor.Peek(0);
      }
      Next(s, |text|);
    }

    /** Pass a comment, but not the newline after it. */
    method TakeComment() returns (text: string)
      requires Valid()
      modifies cursor
      ensures Valid()
      ensures text == old(cursor.Rest())[..CommentRun(old(cursor.Rest()))]
        && cursor.Rest() == old(cursor.Rest())[CommentRun(old(cursor.Rest()))..]
    {
      hide SC.RestAt;
      ghost var s := cursor.Rest();
      text := "";
      var c := cursor.Peek(0);
      while c.Some? && c.value != '\n'
        invariant Valid() && |text| <= |s| && text == s[..|text|] && cursor.Rest() == s[|text|..]
        invariant c == Ahead(s, |text|) && |text| + CommentRun(s[|text|..]) == CommentRun(s)
        decreases |s| - |text|
      {
        Next(s, |text|);
        var d := Take();
        text := text + [d];
        c := cursor.Peek(0);
      }
      Next(s, |text|);
    }

    /** A name or keyword. */
    method TakeWord() returns (text: string)
      requires Valid()
      modifies cursor
      ensures Valid()
      ensures text == old(cursor.Rest())[..WordRun(old(cursor.Rest()))]
        && cursor.Rest() == old(cursor.Rest())[WordRun(old(cursor.Rest()))..]
    {
      hide SC.RestAt;
      ghost var s := cursor.Rest();
      text := "";
      var c := cursor.Peek(0);
      while c.Some? && IsWordPart(c.value)
        invariant Valid() && |text| <= |s| && text == s[..|text|] && cursor.Rest() == s[|text|..]
        invariant c == Ahead(s, |text|) && |text| + WordRun(s[|text|..]) == WordRun(s)
        decreases |s| - |text|
      {
        Next(s, |text|);
        var d := Take();
        text := text + [d];
        c := cursor.Peek(0);
      }
      Next(s, |text|);
    }

    /** A number: digits with at most one point among them. */
    method TakeNumber() returns (text: string)
      requires Valid()
      modifies cursor
      ensures Valid()
      ensures text == old(cursor.Rest())[..NumberRun(old(cursor.Rest()), false)]
      ensures cursor.Rest() == old(cursor.Rest())[NumberRun(old(cursor.Rest()), false)..]
    {
      hide SC.RestAt, NumberRun, ScansAsDigit;
      ghost var s := cursor.Rest();
      text := "";
      var seenDecimal := false;
      var c := cursor.Peek(0);
      while c.Some? && (ScansAsDigit(c.value) || (c.value == '.' && !seenDecimal))
        invariant Valid() && |text| <= |s| && text == s[..|text|] && cursor.Rest() == s[|text|..]
        invariant c == Ahead(s, |text|) && |text| + NumberRun(s[|text|..], seenDecimal) == NumberRun(s, false)
        decreases |s| - |text|
      {
        Next(s, |text|);
        NumberStep(s[|text|..], seenDecimal);
        seenDecimal := seenDecimal || c.value == '.';
        var d := Take();
        text := text + [d];
        c := cursor.Peek(0);
      }
      Next(s, |text|);
      NumberStep(s[|text|..], seenDecimal);
    }

    /** The rest of a string literal, its opening quote passed; `None` if it has no end. */
    method TakeString() returns (text: Option<string>)
      requires Valid()
      modifies cursor
      ensures Valid()
      ensures
        var n := StringRun(old(cursor.Rest()), false);
        if n.None? then text.None?
        else text == Some(old(cursor.Rest())[..n.value]) && cursor.Rest() == old(cursor.Rest())[n.value..]
    {
      hide SC.RestAt, StringRun;
      ghost var s := cursor.Rest();
      var chars, escaped := "", false;
      var c := cursor.Peek(0);
      while c.Some? && !(c.value == '\n' && !escaped)
        invariant Valid() && |chars| <= |s| && chars == s[..|chars|] && cursor.Rest() == s[|chars|..]
        invariant c == Ahead(s, |chars|) && StringRun(s, false) == Further(|chars|, StringRun(s[|chars|..], escaped))
        decreases |s| - |chars|
      {
        Next(s, |chars|);
        StringStep(s[|chars|..], escaped);
        var d := Take();
        chars := chars + [d];
        if !escaped && d == '"' {
          return Some(chars);
        }
        escaped := !escaped && d == '\\';
        c := cursor.Peek(0);
      }
      Next(s, |chars|);
      StringStep(s[|chars|..], escaped);
      text := None;
    }

    /** The rest of a regular expression, its opening slash passed; `None` if it has no end. */
    method TakeRegex() returns (text: Option<string>)
      requires Valid()
      modifies cursor
      ensures Valid()
      ensures
        var n := RegexRun(old(cursor.Rest()), false, false);
        if n.None? then text.None?
        else text == Some(old(cursor.Rest())[..n.value]) && cursor.Rest() == old(cursor.Rest())[n.value..]
    {
      hide SC.RestAt, RegexRun;
      ghost var s := cursor.Rest();
      var chars, escaped, inCharClass := "", false, false;
      var c := cursor.Peek(0);
      while c.Some? && !(c.value == '\n' && !escaped)
        invariant Valid() && |chars| <= |s| && chars == s[..|chars|] && cursor.Rest() == s[|chars|..]
        invariant c == Ahead(s, |chars|)
        invariant RegexRun(s, false, false) == Further(|chars|, RegexRun(s[|chars|..], escaped, inCharClass))
        decreases |s| - |chars|
      {
        Next(s, |chars|);
        RegexStep(s[|chars|..], escaped, inCharClass);
        var d := Take();
        chars := chars + [d];
        if escaped {
          escaped := false;
        } else if d == '\\' {
          escaped := true;
        } else if d == '[' && !inCharClass {
          inCharClass := true;
        } else if d == ']' && inCharClass {
          inCharClass := false;
        } else if d == '/' && !inCharClass {
          return Some(chars);
        }
        c := cursor.Peek(0);
      }
      Next(s, |chars|);
      RegexStep(s[|chars|..], escaped, inCharClass);
      text := None;
    }

    /** The token is done; what may come next depends on it. */
    method FinishToken(t: Token) returns (r: Step)
      requires Valid()
      modifies this`expectOperand
      ensures Valid() && cursor.Rest() == old(cursor.Rest()) && expectOperand == ExpectsAfter(t, old(expectOperand))
        && r == Got(t)
    {
      expectOperand := ExpectsAfter(t, expectOperand);
      r := Got(t);
    }

    /** An operator whose text is the next `n` characters. */
    method TakeOperator(n: nat) returns (r: Step)
      requires Valid() && 0 < n <= 2 && n <= |cursor.Rest()|
      modifies this`expectOperand, cursor
      ensures
        var t := Op(old(cursor.Rest())[..n]);
        Valid() && r == Got(t) && cursor.Rest() == old(cursor.Rest())[n..]
          && expectOperand == ExpectsAfter(t, old(expectOperand))
    {
      hide SC.RestAt, ExpectsAfter;
      ghost var s := cursor.Rest();
      var first := Take();
      var text := [first];
      if n == 2 {
        var second := Take();
        text := text + [second];
      }
      assert text == s[..n];
      r := FinishToken(Op(text));
    }

    /** `/` divides where no operand can come, and opens a regular expression where one can. */
    method ScanSlashOrRegex() returns (r: Step)
      requires Valid() && cursor.Rest() != "" && cursor.Rest()[0] == '/'
      modifies this`expectOperand, cursor
      ensures Valid() && Means(r, Scan(old(cursor.Rest()), old(expectOperand)), old(expectOperand))
    {
      hide SC.RestAt, ExpectsAfter, RegexRun;
      ghost var s := cursor.Rest();
      if !expectOperand {
        var next := cursor.Peek(1);
        assert s[..1] == "/" && (|s| > 1 && s[1] == '=' ==> s[..2] == "/=");
        if next == Some('=') {
          r := TakeOperator(2);
        } else {
          r := TakeOperator(1);
        }
        return;
      }
      var slash := Take();
      var rest := TakeRegex();
      if rest.None? {
        return Error;
      }
      assert [slash] + rest.value == s[..|rest.value| + 1];
      r := FinishToken(Regex([slash] + rest.value));
    }

    /** The step and the state after it are what the scanner's rules say. */
    ghost predicate Means(r: Step, expected: Scanned, before: bool)
      requires Valid()
      reads this, cursor
    {
      match expected
      case End => r == AtEnd
      case Failed => r == Error
      case Skipped(rest) => r == Trivia && cursor.Rest() == rest && expectOperand == before
      case Found(t, rest) => r == Got(t) && cursor.Rest() == rest && expectOperand == ExpectsAfter(t, before)
    }

    /** Scan one token, or pass over something that is none. */
    method ScanToken() returns (r: Step)
      requires Valid()
      modifies this`expectOperand, cursor
      ensures Valid() && Means(r, Scan(old(cursor.Rest()), old(expectOperand)), old(expectOperand))
    {
      hide SC.RestAt, ExpectsAfter, Scan, BlankRun, IsBlank;
      ScanStarts(cursor.Rest(), expectOperand);
      var first := cursor.Peek(0);
      if first.None? {
        return AtEnd;
      }
      if IsBlank(first.value) {
        var _ := TakeBlanks();
        return Trivia;
      }
      r := ScanNonBlank(first.value);
    }

    /** A line that goes on, the end of a line, a comment, or a token. */
    method ScanNonBlank(c: char) returns (r: Step)
      requires Valid() && cursor.Rest() != "" && c == cursor.Rest()[0] && !IsBlank(c)
      modifies this`expectOperand, cursor
      ensures Valid() && Means(r, Scan(old(cursor.Rest()), old(expectOperand)), old(expectOperand))
    {
      hide SC.RestAt, ExpectsAfter, StringRun, RegexRun, WordRun, NumberRun, BlankRun, CommentRun, IsKeyword;
      hide IsPunctuation, IsPair, IsBlank;
      ghost var s := cursor.Rest();
      var second := cursor.Peek(1);
      if c == '\\' && second == Some('\n') {
        var _ := Take();
        var _ := Take();
        return Trivia;
      }
      if c == '\n' {
        assert s[..1] == "\n";
        r := TakeOperator(1);
        return;
      }
      if c == '#' {
        var _ := TakeComment();
        return Trivia;
      }
      r := ScanVisible(c, second);
    }

    /** A token that is neither a newline nor nothing. */
    method ScanVisible(c: char, second: Option<char>) returns (r: Step)
      requires Valid() && cursor.Rest() != "" && c == cursor.Rest()[0] && second == Ahead(cursor.Rest(), 1)
      requires !IsBlank(c) && c != '\n' && c != '#' && !(c == '\\' && second == Some('\n'))
      modifies this`expectOperand, cursor
      ensures Valid() && Means(r, Scan(old(cursor.Rest()), old(expectOperand)), old(expectOperand))
    {
      hide SC.RestAt, ExpectsAfter, StringRun, RegexRun, WordRun, NumberRun, BlankRun, CommentRun, IsKeyword;
      hide IsPunctuation, IsPair, IsBlank;
      if c == '/' {
        r := ScanSlashOrRegex();
        return;
      }
      if second.Some? && IsPair(c, second.value) {
        r := TakeOperator(2);
        return;
      }
      if IsPunctuation(c) {
        r := TakeOperator(1);
        return;
      }
      r := ScanLongToken(c);
    }

    /** A string, a word or a number. */
    method ScanLongToken(c: char) returns (r: Step)
      requires Valid() && cursor.Rest() != "" && c == cursor.Rest()[0] && !IsBlank(c) && c != '\n' && c != '#'
        && c != '/' && !IsPunctuation(c)
      requires |cursor.Rest()| > 1 ==> !IsPair(c, cursor.Rest()[1]) && (c == '\\' ==> cursor.Rest()[1] != '\n')
      modifies this`expectOperand, cursor
      ensures Valid() && Means(r, Scan(old(cursor.Rest()), old(expectOperand)), old(expectOperand))
    {
      hide SC.RestAt, ExpectsAfter, StringRun, RegexRun, WordRun, NumberRun, BlankRun, CommentRun, IsKeyword;
      hide IsPunctuation, IsPair, IsBlank;
      ghost var s := cursor.Rest();
      if c == '"' {
        var quote := Take();
        var rest := TakeString();
        if rest.None? {
          return Error;
        }
        assert [quote] + rest.value == s[..|rest.value| + 1];
        r := FinishToken(Str([quote] + rest.value));
      } else if IsLetter(c) {
        var text := TakeWord();
        r := FinishToken(WordToken(text));
      } else if ScansAsDigit(c) {
        var text := TakeNumber();
        r := FinishToken(Number(text));
      } else {
        r := Error;
      }
    }
  }

  /** A run that goes on after `n` characters. */
  function Further(n: nat, r: Option<nat>): Option<nat> {
    if r.None? then None else Some(n + r.value)
  }

  /** All tokens of the files' one text, up to its end or the first thing that is no token. */
  method ScanTokens(files: seq<string>) returns (r: Option<seq<Token>>)
    ensures r == Lex(SC.Flat(files), true)
  {
    hide SC.RestAt, SC.Flat, Scan, ExpectsAfter;
    var scanner := new Scanner(files);
    var tokens: seq<Token> := [];
    ghost var all := Lex(SC.Flat(files), true);
    assert all.Some? ==> [] + all.value == all.value;
    while true
      invariant scanner.Valid() && fresh(scanner) && fresh(scanner.cursor)
      invariant all == Prefixed(tokens, Lex(scanner.cursor.Rest(), scanner.expectOperand))
      decreases |scanner.cursor.Rest()|
    {
      LexStep(scanner.cursor.Rest(), scanner.expectOperand, tokens);
      var step := scanner.ScanToken();
      match step {
        case AtEnd => return Some(tokens);
        case Error => return None;
        case Trivia =>
        case Got(t) => tokens := tokens + [t];
      }
    }
  }

  function Prefixed(tokens: seq<Token>, rest: Option<seq<Token>>): Option<seq<Token>> {
    if rest.None? then None else Some(tokens + rest.value)
  }

  lemma LexStep(s: string, expected: bool, tokens: seq<Token>)
    ensures Prefixed(tokens, Lex(s, expected)) ==
      match Scan(s, expected)
      case End => Some(tokens)
      case Failed => None
      case Skipped(rest) => Prefixed(tokens, Lex(rest, expected))
      case Found(t, rest) => Prefixed(tokens + [t], Lex(rest, ExpectsAfter(t, expected)))
  {
    hide Scan, ExpectsAfter;
    match Scan(s, expected)
    case End => assert tokens + [] == tokens;
    case Found(t, rest) =>
      var more := Lex(rest, ExpectsAfter(t, expected));
      if more.Some? { assert tokens + ([t] + more.value) == (tokens + [t]) + more.value; }
    case _ =>
  }
}

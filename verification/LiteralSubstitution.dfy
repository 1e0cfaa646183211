/** `gsub` with a pattern that is a plain text takes the text apart where the pattern stands and joins the
    parts with the replacement; with a pattern that matches nothing at all, it stands around each character. */
module LiteralSubstitution {
  import opened Options
  import opened CStrings
  import opened FieldText
  import opened Substitution

  // ----- A plain text -----

  /** Finds a text where it first occurs. */
  function Literal(pattern: string): Matcher {
    s =>
      var found := FindSub(s, pattern);
      if found.None? then None else Some(Span(found.value, found.value + |pattern|))
  }

  lemma LiteralIsLawful(pattern: string)
    ensures Lawful(Literal(pattern))
  {
    forall s | Literal(pattern)(s).Some?
      ensures Literal(pattern)(s).value.start <= Literal(pattern)(s).value.end <= |s|
    {
      assert HasAt(s, pattern, FindSub(s, pattern).value);
    }
  }

  lemma FoundThere(pattern: string, text: string)
    requires FindSub(text, pattern).Some?
    ensures
      var i := FindSub(text, pattern).value;
      && i + |pattern| <= |text| && text[i..i + |pattern|] == pattern
      && Literal(pattern)(text) == Some(Span(i, i + |pattern|))
  {
  }

  /** The first occurrence, and the rest. */
  lemma LiteralPieces(pattern: string, text: string)
    requires pattern != "" && FindSub(text, pattern).Some?
    ensures
      var i := FindSub(text, pattern).value;
      && Lawful(Literal(pattern)) && i + |pattern| <= |text|
      && Pieces(Literal(pattern), text, true)
        == [Gap(text[..i]), Match(pattern)] + Pieces(Literal(pattern), text[i + |pattern|..], true)
  {
    hide FindSub, HasAt, Pieces, Literal, Lawful;
    LiteralIsLawful(pattern);
    FoundThere(pattern, text);
    Substitution.PiecesStart(Literal(pattern), text, true);
  }

  lemma NoPieces(pattern: string, text: string)
    requires FindSub(text, pattern).None?
    ensures Lawful(Literal(pattern)) && Pieces(Literal(pattern), text, true) == [Gap(text)]
  {
    LiteralIsLawful(pattern);
    hide FindSub;
  }

  lemma GapAndMatch(gap: string, found: string, pieces: seq<Piece>, replacement: string)
    ensures
      var all := [Gap(gap), Match(found)] + pieces;
      && Replaced(all, replacement) == gap + Expand(replacement, found) + Replaced(pieces, replacement)
      && Matches(all) == 1 + Matches(pieces)
  {
    hide Replaced, Matches, Expand;
    PiecesAppend([Gap(gap), Match(found)], pieces, replacement);
    TwoPieces(Gap(gap), Match(found), replacement);
    OnePiece(Gap(gap), replacement);
    OnePiece(Match(found), replacement);
  }

  lemma JoinedOne(part: string, separator: string)
    ensures Join([part], separator) == part
  {
  }

  lemma NotEmpty(s: string, separator: string)
    requires separator != ""
    ensures SplitOn(s, separator) != []
  {
  }

  lemma JoinedFirst(first: string, more: seq<string>, separator: string)
    requires more != []
    ensures Join([first] + more, separator) == first + separator + Join(more, separator)
  {
    assert ([first] + more)[1..] == more;
  }

  /** Every occurrence is replaced, from the left. */
  lemma {:induction false} LiteralSubstituted(pattern: string, replacement: string, text: string)
    requires pattern != ""
    ensures Lawful(Literal(pattern))
    ensures
      var pieces, parts := Pieces(Literal(pattern), text, true), SplitOn(text, pattern);
      && Replaced(pieces, replacement) == Join(parts, Expand(replacement, pattern))
      && Matches(pieces) == |parts| - 1
    decreases |text|
  {
    hide Pieces, Replaced, Matches, Expand, SplitOn, HasAt, FindSub, Literal, Lawful, Join;
    LiteralIsLawful(pattern);
    SplitStart(text, pattern);
    JoinedOne(text, Expand(replacement, pattern));
    var found := FindSub(text, pattern);
    if found.None? {
      NoPieces(pattern, text);
      OnePiece(Gap(text), replacement);
    } else {
      LiteralPieces(pattern, text);
      var rest := text[found.value + |pattern|..];
      NotEmpty(rest, pattern);
      LiteralSubstituted(pattern, replacement, rest);
      GapAndMatch(text[..found.value], pattern, Pieces(Literal(pattern), rest, true), replacement);
      JoinedFirst(text[..found.value], SplitOn(rest, pattern), Expand(replacement, pattern));
    }
  }

  // ----- Nothing at all -----

  function Nowhere(): Matcher {
    s => Some(Span(0, 0))
  }

  /** The text with something before each character and after the last. */
  function Around(text: string, inserted: string): string {
    if text == "" then inserted else inserted + [text[0]] + Around(text[1..], inserted)
  }

  /** A pattern that matches nothing matches once before each character and once after the last. */
  lemma {:induction false} NothingSubstituted(replacement: string, text: string)
    ensures Lawful(Nowhere())
    ensures
      var pieces := Pieces(Nowhere(), text, true);
      Replaced(pieces, replacement) == Around(text, Expand(replacement, "")) && Matches(pieces) == |text| + 1
    decreases |text|
  {
    hide Pieces, Replaced, Matches, Expand;
    var inserted, start := Expand(replacement, ""), [Gap(""), Match("")];
    assert Lawful(Nowhere()) && Nowhere()(text) == Some(Span(0, 0));
    Substitution.PiecesStart(Nowhere(), text, true);
    assert text[..0] == "" && text[0..0] == "" && text[0..] == text;
    if text == "" {
      OnePiece(Gap(""), replacement);
      GapAndMatch("", "", [Gap("")], replacement);
      assert "" + inserted + "" == inserted;
    } else {
      var rest := Pieces(Nowhere(), text[1..], true);
      NothingSubstituted(replacement, text[1..]);
      OnePiece(Copied([text[0]]), replacement);
      PiecesAppend([Copied([text[0]])], rest, replacement);
      GapAndMatch("", "", [Copied([text[0]])] + rest, replacement);
      assert "" + inserted + ([text[0]] + Replaced(rest, replacement))
          == inserted + [text[0]] + Replaced(rest, replacement);
    }
  }

  // ----- A plain text at the beginning -----

  /** Finds a text only where the text it is given begins. */
  function AtStart(pattern: string): Matcher {
    s => if pattern <= s then Some(Span(0, |pattern|)) else None
  }

  function Repeated(text: string, n: nat): string {
    if n == 0 then "" else text + Repeated(text, n - 1)
  }

  /** `gsub(/^a/, "")` takes every `a` at the beginning away, not the first alone. */
  lemma {:induction false} StartSubstituted(pattern: string, n: nat, rest: string, replacement: string)
    requires pattern != "" && !(pattern <= rest)
    ensures Lawful(AtStart(pattern)) && Anchored(AtStart(pattern))
    ensures
      var pieces := Pieces(AtStart(pattern), Repeated(pattern, n) + rest, true);
      && Matches(pieces) == n
      && Replaced(pieces, replacement) == Repeated(Expand(replacement, pattern), n) + rest
    decreases n
  {
    hide Pieces, Replaced, Matches, Expand, AtStart, Lawful, Anchored, Repeated;
    StartIsAnchored(pattern);
    var inserted := Expand(replacement, pattern);
    RepeatedMore(pattern, n, rest);
    RepeatedMore(inserted, n, rest);
    if n == 0 {
      StartMissed(pattern, rest);
      OnePiece(Gap(rest), replacement);
    } else {
      var more := Repeated(pattern, n - 1) + rest;
      StartFound(pattern, more);
      StartSubstituted(pattern, n - 1, rest, replacement);
      GapAndMatch("", pattern, Pieces(AtStart(pattern), more, true), replacement);
      assert "" + inserted == inserted;
    }
  }

  lemma RepeatedMore(text: string, n: nat, rest: string)
    ensures Repeated(text, n) + rest == if n == 0 then rest else text + (Repeated(text, n - 1) + rest)
  {
    if n > 0 { assert text + Repeated(text, n - 1) + rest == text + (Repeated(text, n - 1) + rest); }
  }

  lemma StartIsAnchored(pattern: string)
    ensures Lawful(AtStart(pattern)) && Anchored(AtStart(pattern))
  {
  }

  lemma StartMissed(pattern: string, text: string)
    requires !(pattern <= text)
    ensures Lawful(AtStart(pattern)) && Pieces(AtStart(pattern), text, true) == [Gap(text)]
  {
  }

  lemma StartFound(pattern: string, more: string)
    requires pattern != ""
    ensures Lawful(AtStart(pattern))
    ensures Pieces(AtStart(pattern), pattern + more, true)
      == [Gap(""), Match(pattern)] + Pieces(AtStart(pattern), more, true)
  {
    hide Pieces;
    var text := pattern + more;
    assert AtStart(pattern)(text) == Some(Span(0, |pattern|));
    assert text[..0] == "" && text[0..|pattern|] == pattern && text[|pattern|..] == more;
    Substitution.PiecesStart(AtStart(pattern), text, true);
  }
}

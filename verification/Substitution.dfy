/** `sub` and `gsub`: the loop over matches, with empty matches stepped over one character at a
    time, and the replacement text with its `&` and backslashes. The matcher is any function that
    finds a span in the suffix it is given. */
module Substitution {
  import opened Options
  import opened CStrings

  datatype Span = Span(start: nat, end: nat)

  type Matcher = string -> Option<Span>

  /** The spans lie inside the text. */
  ghost predicate Lawful(find: Matcher) {
    forall s :: find(s).Some? ==> find(s).value.start <= find(s).value.end <= |s|
  }

  // ----- The replacement text -----

  /** `&` stands for the match, and a backslash takes the meaning from `&` and from itself. */
  function Expand(replacement: string, found: string): string {
    if replacement == "" then ""
    else if replacement[0] == '&' then found + Expand(replacement[1..], found)
    else if Escapes(replacement) then [replacement[1]] + Expand(replacement[2..], found)
    else [replacement[0]] + Expand(replacement[1..], found)
  }

  predicate Escapes(s: string) {
    |s| > 1 && s[0] == '\\' && (s[1] == '&' || s[1] == '\\')
  }

  lemma ExpandStart(replacement: string, found: string, at: nat)
    requires at < |replacement|
    ensures
      var rest := replacement[at..];
      Expand(rest, found) ==
        if replacement[at] == '&' then found + Expand(replacement[at + 1..], found)
        else if Escapes(rest) then [replacement[at + 1]] + Expand(replacement[at + 2..], found)
        else [replacement[at]] + Expand(replacement[at + 1..], found)
  {
    assert replacement[at..][1..] == replacement[at + 1..];
    if at + 1 < |replacement| { assert replacement[at..][2..] == replacement[at + 2..]; }
  }

  /** A backslash before every `&` and every backslash. */
  function Quoted(s: string): string {
    if s == "" then ""
    else (if s[0] == '&' || s[0] == '\\' then ['\\', s[0]] else [s[0]]) + Quoted(s[1..])
  }

  /** A quoted replacement inserts exactly the text that was quoted. */
  lemma {:induction false} QuotedIsLiteral(s: string, found: string)
    ensures Expand(Quoted(s), found) == s
  {
    if s != "" {
      var q, rest := Quoted(s), Quoted(s[1..]);
      QuotedIsLiteral(s[1..], found);
      if s[0] == '&' || s[0] == '\\' {
        assert q == ['\\', s[0]] + rest && q[2..] == rest;
        assert Escapes(q);
      } else {
        assert q == [s[0]] + rest && q[1..] == rest;
      }
    }
  }

  lemma AmpersandIsTheMatch(found: string)
    ensures Expand("&", found) == found
  {
    assert "&"[1..] == "";
  }

  // ----- The pieces of a text -----

  datatype Piece = Gap(text: string) | Match(text: string) | Copied(text: string)

  /** What the loop takes the text apart into. */
  function Pieces(find: Matcher, s: string, everywhere: bool): seq<Piece>
    requires Lawful(find)
    decreases |s|
  {
    var found := find(s);
    if found.None? then [Gap(s)] else
    var Span(start, end) := found.value;
    var first := [Gap(s[..start]), Match(s[start..end])];
    if !everywhere then first + [Gap(s[end..])]
    else if start < end then first + Pieces(find, s[end..], everywhere)
    else if end == |s| then first + [Gap(s[end..])]
    else first + [Copied([s[end]])] + Pieces(find, s[end + 1..], everywhere)
  }

  /** A matched prefix and what the loop does after it. */
  function After(find: Matcher, s: string, end: nat, empty: bool, everywhere: bool): seq<Piece>
    requires Lawful(find) && end <= |s| && (empty || end > 0)
  {
    if !everywhere || (empty && end == |s|) then [Gap(s[end..])]
    else if empty then [Copied([s[end]])] + Pieces(find, s[end + 1..], everywhere)
    else Pieces(find, s[end..], everywhere)
  }

  lemma PiecesStart(find: Matcher, s: string, everywhere: bool)
    requires Lawful(find) && find(s).Some?
    ensures
      var Span(start, end) := find(s).value;
      Pieces(find, s, everywhere) == [Gap(s[..start]), Match(s[start..end])]
        + After(find, s, end, start == end, everywhere)
  {
  }

  /** The pieces with every match replaced. */
  function Replaced(pieces: seq<Piece>, replacement: string): string {
    if pieces == [] then "" else
    (if pieces[0].Match? then Expand(replacement, pieces[0].text) else pieces[0].text)
      + Replaced(pieces[1..], replacement)
  }

  function Original(pieces: seq<Piece>): string {
    if pieces == [] then "" else pieces[0].text + Original(pieces[1..])
  }

  function Matches(pieces: seq<Piece>): nat {
    if pieces == [] then 0 else (if pieces[0].Match? then 1 else 0) + Matches(pieces[1..])
  }

  lemma {:induction false} ReplacedAppend(a: seq<Piece>, b: seq<Piece>, replacement: string)
    ensures Replaced(a + b, replacement) == Replaced(a, replacement) + Replaced(b, replacement)
    decreases a
  {
    if a == [] {
      assert a + b == b;
    } else {
      hide Expand;
      assert (a + b)[0] == a[0] && (a + b)[1..] == a[1..] + b;
      ReplacedAppend(a[1..], b, replacement);
    }
  }

  lemma {:induction false} OriginalAppend(a: seq<Piece>, b: seq<Piece>)
    ensures Original(a + b) == Original(a) + Original(b) && Matches(a + b) == Matches(a) + Matches(b)
    decreases a
  {
    if a == [] {
      assert a + b == b;
    } else {
      assert (a + b)[0] == a[0] && (a + b)[1..] == a[1..] + b;
      OriginalAppend(a[1..], b);
    }
  }

  lemma PiecesAppend(a: seq<Piece>, b: seq<Piece>, replacement: string)
    ensures Replaced(a + b, replacement) == Replaced(a, replacement) + Replaced(b, replacement)
    ensures Original(a + b) == Original(a) + Original(b) && Matches(a + b) == Matches(a) + Matches(b)
  {
    ReplacedAppend(a, b, replacement);
    OriginalAppend(a, b);
  }

  lemma OnePiece(p: Piece, replacement: string)
    ensures Original([p]) == p.text && Matches([p]) == (if p.Match? then 1 else 0)
    ensures Replaced([p], replacement) == if p.Match? then Expand(replacement, p.text) else p.text
  {
    assert [p][1..] == [];
  }

  lemma TwoPieces(p: Piece, q: Piece, replacement: string)
    ensures Original([p, q]) == p.text + q.text
    ensures Matches([p, q]) == Matches([p]) + Matches([q])
    ensures Replaced([p, q], replacement) == Replaced([p], replacement) + Replaced([q], replacement)
  {
    assert [p, q] == [p] + [q];
    PiecesAppend([p], [q], replacement);
    OnePiece(p, replacement);
    OnePiece(q, replacement);
  }

  /** Gaps, matches and copied characters in order are the original text. */
  lemma {:induction false} PiecesAreTheText(find: Matcher, s: string, everywhere: bool)
    requires Lawful(find)
    ensures Original(Pieces(find, s, everywhere)) == s
    decreases |s|, 1
  {
    var found := find(s);
    if found.None? {
      OnePiece(Gap(s), "");
    } else {
      var Span(start, end) := found.value;
      var gap, matched := Gap(s[..start]), Match(s[start..end]);
      PiecesStart(find, s, everywhere);
      hide *;
      AfterIsTheRest(find, s, end, start == end, everywhere);
      TwoPieces(gap, matched, "");
      PiecesAppend([gap, matched], After(find, s, end, start == end, everywhere), "");
      Rejoined(s, start, end);
    }
  }

  lemma Rejoined(s: string, start: nat, end: nat)
    requires start <= end <= |s|
    ensures s == s[..start] + s[start..end] + s[end..]
  {
  }

  lemma {:induction false} AfterIsTheRest(find: Matcher, s: string, end: nat, empty: bool, everywhere: bool)
    requires Lawful(find) && end <= |s| && (empty || end > 0)
    ensures Original(After(find, s, end, empty, everywhere)) == s[end..]
    decreases |s|, 0
  {
    hide Pieces, Original, Replaced, Matches;
    if !everywhere || (empty && end == |s|) {
      OnePiece(Gap(s[end..]), "");
    } else if empty {
      OnePiece(Copied([s[end]]), "");
      PiecesAreTheText(find, s[end + 1..], everywhere);
      PiecesAppend([Copied([s[end]])], Pieces(find, s[end + 1..], everywhere), "");
      assert s[end..] == [s[end]] + s[end + 1..];
    } else {
      PiecesAreTheText(find, s[end..], everywhere);
    }
  }

  /** Replacing every match by itself changes nothing. */
  lemma {:induction false} ReplacedByItself(pieces: seq<Piece>)
    ensures Replaced(pieces, "&") == Original(pieces)
  {
    if pieces != [] {
      AmpersandIsTheMatch(pieces[0].text);
      ReplacedByItself(pieces[1..]);
    }
  }

  /** Every match replaced by the same text. */
  function Filled(pieces: seq<Piece>, text: string): string {
    if pieces == [] then "" else (if pieces[0].Match? then text else pieces[0].text) + Filled(pieces[1..], text)
  }

  lemma {:induction false} QuotedFills(pieces: seq<Piece>, text: string)
    ensures Replaced(pieces, Quoted(text)) == Filled(pieces, text)
  {
    if pieces != [] {
      QuotedIsLiteral(text, pieces[0].text);
      QuotedFills(pieces[1..], text);
    }
  }

  lemma {:induction false} SubReplacesOnce(find: Matcher, s: string)
    requires Lawful(find)
    ensures Matches(Pieces(find, s, false)) == if find(s).Some? then 1 else 0
  {
    var found := find(s);
    if found.None? {
      OnePiece(Gap(s), "");
    } else {
      var Span(start, end) := found.value;
      TwoPieces(Gap(s[..start]), Match(s[start..end]), "");
      OnePiece(Gap(s[..start]), "");
      OnePiece(Match(s[start..end]), "");
      OnePiece(Gap(s[end..]), "");
      PiecesAppend([Gap(s[..start]), Match(s[start..end])], [Gap(s[end..])], "");
    }
  }

  // ----- Anchored patterns -----

  /** The matcher finds a match only where the text it is given begins. */
  ghost predicate Anchored(find: Matcher) {
    forall s :: find(s).Some? ==> find(s).value.start == 0
  }

  /** What the next search is given after a match at the beginning; nothing follows an empty match
      at the end. */
  function NextSearch(s: string, end: nat): Option<string>
    requires end <= |s|
  {
    if end > 0 then Some(s[end..]) else if s == "" then None else Some(s[1..])
  }

  /** How often in a row the matcher matches where the search before it left off. */
  function Streak(find: Matcher, s: string): nat
    requires Lawful(find)
    decreases |s|
  {
    if find(s).None? then 0 else
    SpanInside(find, s);
    var rest := NextSearch(s, find(s).value.end);
    if rest.None? then 1 else 1 + Streak(find, rest.value)
  }

  /** The first match, and those of the rest. */
  lemma MatchesFirst(find: Matcher, s: string)
    requires Lawful(find) && find(s).Some?
    ensures
      var Span(start, end) := find(s).value;
      Matches(Pieces(find, s, true)) == 1 + Matches(After(find, s, end, start == end, true))
  {
    var Span(start, end) := find(s).value;
    var gap, matched := Gap(s[..start]), Match(s[start..end]);
    PiecesStart(find, s, true);
    TwoPieces(gap, matched, "");
    OnePiece(gap, "");
    OnePiece(matched, "");
    PiecesAppend([gap, matched], After(find, s, end, start == end, true), "");
  }

  /** Each search sees only the rest of the text, so a pattern anchored at its beginning matches
      again and again: as often as it matches in a row. */
  lemma {:induction false} AnchorsMatchEverySuffix(find: Matcher, s: string)
    requires Lawful(find) && Anchored(find)
    ensures Matches(Pieces(find, s, true)) == Streak(find, s)
    decreases |s|
  {
    if find(s).None? {
      OnePiece(Gap(s), "");
    } else {
      var end := find(s).value.end;
      MatchesFirst(find, s);
      if end > 0 {
        AnchorsMatchEverySuffix(find, s[end..]);
      } else if s == "" {
        OnePiece(Gap(s[end..]), "");
      } else {
        var copied := Copied([s[0]]);
        AnchorsMatchEverySuffix(find, s[1..]);
        OnePiece(copied, "");
        PiecesAppend([copied], Pieces(find, s[1..], true), "");
      }
    }
  }

  /** So an anchored pattern that matches does so just once, as its anchor says it should, if and
      only if it does not match what the next search is given. */
  lemma AnchoredOnce(find: Matcher, s: string)
    requires Lawful(find) && Anchored(find) && find(s).Some?
    ensures
      var rest := NextSearch(s, find(s).value.end);
      Matches(Pieces(find, s, true)) == 1 <==> rest.None? || find(rest.value).None?
  {
    AnchorsMatchEverySuffix(find, s);
  }

  // ----- The loop -----

  /** The buffer results are put together in. */
  class Scratch {
    var buffer: array<char>

    constructor ()
      ensures fresh(buffer)
    {
      buffer := new char[0];
    }

    /** At least `length + 1` characters. */
    method Reserve(length: nat)
      modifies this
      ensures length < buffer.Length && (buffer == old(buffer) || fresh(buffer))
      ensures buffer[..] == old(buffer[..]) || old(buffer[..]) <= buffer[..]
    {
      if length + 1 <= buffer.Length {
        return;
      }
      var grown := new char[length + 1];
      for i := 0 to buffer.Length
        invariant buffer == old(buffer) && grown[..i] == buffer[..i]
      {
        grown[i] := buffer[i];
      }
      buffer := grown;
    }

    /** `text` at `offset`, with a NUL after it. */
    method Append(offset: nat, text: string) returns (end: nat)
      requires offset <= buffer.Length
      modifies this, buffer
      ensures end == offset + |text| < buffer.Length && buffer[end] == NUL && (buffer == old(buffer) || fresh(buffer))
      ensures buffer[..end] == old(buffer[..offset]) + text
    {
      ghost var before := buffer[..offset];
      Reserve(offset + |text|);
      assert buffer[..offset] == before;
      for i := 0 to |text|
        invariant (buffer == old(buffer) || fresh(buffer)) && offset + |text| < buffer.Length
        invariant buffer[..offset + i] == before + text[..i]
      {
        buffer[offset + i] := text[i];
      }
      end := offset + |text|;
      buffer[end] := NUL;
    }

    /** The replacement with `&` standing for `found`. */
    method AppendReplacement(offset: nat, replacement: string, found: string) returns (end: nat)
      requires offset <= buffer.Length
      modifies this, buffer
      ensures offset <= end <= buffer.Length && (buffer == old(buffer) || fresh(buffer))
      ensures buffer[..end] == old(buffer[..offset]) + Expand(replacement, found)
    {
      hide Expand;
      ghost var all, before := Expand(replacement, found), buffer[..offset];
      NothingExpands(found);
      assert replacement[0..] == replacement;
      end := offset;
      var index := 0;
      while index < |replacement|
        invariant index <= |replacement| && end <= buffer.Length && offset <= end
          && (buffer == old(buffer) || fresh(buffer))
        invariant buffer[..end] + Expand(replacement[index..], found) == before + all
      {
        ExpandStart(replacement, found, index);
        ghost var written := buffer[..end];
        var current := replacement[index];
        if current == '&' {
          end := Append(end, found);
          RegroupText(written, found, Expand(replacement[index + 1..], found));
          index := index + 1;
        } else if current == '\\' && index + 1 < |replacement|
          && (replacement[index + 1] == '&' || replacement[index + 1] == '\\') {
          end := Append(end, [replacement[index + 1]]);
          RegroupText(written, [replacement[index + 1]], Expand(replacement[index + 2..], found));
          index := index + 2;
        } else {
          end := Append(end, [current]);
          RegroupText(written, [current], Expand(replacement[index + 1..], found));
          index := index + 1;
        }
      }
      assert replacement[index..] == "" && buffer[..end] + "" == buffer[..end];
    }

    /** `sub` and `gsub`. The result stands in the buffer, with a NUL after it. */
    method Substitute(find: Matcher, replacement: string, text: string, everywhere: bool) returns (count: nat, end: nat)
      requires Lawful(find)
      modifies this, buffer
      ensures end < buffer.Length && buffer[end] == NUL
      ensures buffer[..end] == Replaced(Pieces(find, text, everywhere), replacement)
      ensures count == Matches(Pieces(find, text, everywhere))
    {
      hide Pieces, Replaced, Matches, Expand, Lawful;
      ghost var all := Pieces(find, text, everywhere);
      ghost var done: seq<Piece> := [];
      var cursor := 0;
      count := 0;
      end := Append(0, "");
      Nothing(replacement);
      assert text[0..] == text;
      while true
        invariant cursor <= |text| && end <= buffer.Length && (buffer == old(buffer) || fresh(buffer))
        invariant all == done + Pieces(find, text[cursor..], everywhere)
        invariant buffer[..end] == Replaced(done, replacement) && count == Matches(done)
        decreases |text| - cursor
      {
        var found := find(text[cursor..]);
        if found.None? {
          break;
        }
        SpanInside(find, text[cursor..]);
        var start, stop := cursor + found.value.start, cursor + found.value.end;
        Shown(find, text, cursor, start, stop, everywhere);
        Regroup(done, [Gap(text[cursor..start]), Match(text[start..stop])],
                Following(find, text, start, stop, everywhere));
        end := AppendMatch(end, replacement, text[cursor..start], text[start..stop], done);
        count := count + 1;
        done := done + [Gap(text[cursor..start]), Match(text[start..stop])];
        cursor := stop;
        if !everywhere || (start == stop && stop == |text|) {
          end := AppendPlain(end, replacement, Gap(text[stop..]), done);
          return;
        }
        if start == stop {
          end := AppendPlain(end, replacement, Copied([text[stop]]), done);
          Regroup(done, [Copied([text[stop]])], Pieces(find, text[stop + 1..], everywhere));
          done := done + [Copied([text[stop]])];
          cursor := stop + 1;
        }
      }
      OnlyGap(find, text[cursor..], everywhere);
      end := AppendPlain(end, replacement, Gap(text[cursor..]), done);
    }

    /** The text before a match, and the replacement for it. */
    method AppendMatch(offset: nat, replacement: string, gap: string, found: string, ghost done: seq<Piece>)
      returns (end: nat)
      requires offset <= buffer.Length && buffer[..offset] == Replaced(done, replacement)
      modifies this, buffer
      ensures end <= buffer.Length && (buffer == old(buffer) || fresh(buffer))
      ensures buffer[..end] == Replaced(done + [Gap(gap), Match(found)], replacement)
      ensures Matches(done + [Gap(gap), Match(found)]) == Matches(done) + 1
    {
      hide Replaced, Matches, Expand;
      ShownReplaced(gap, found, replacement);
      PiecesAppend(done, [Gap(gap), Match(found)], replacement);
      end := Append(offset, gap);
      end := AppendReplacement(end, replacement, found);
    }

    /** A piece of the text that stays as it is. */
    method AppendPlain(offset: nat, replacement: string, p: Piece, ghost done: seq<Piece>) returns (end: nat)
      requires !p.Match? && offset <= buffer.Length && buffer[..offset] == Replaced(done, replacement)
      modifies this, buffer
      ensures end < buffer.Length && buffer[end] == NUL && (buffer == old(buffer) || fresh(buffer))
      ensures buffer[..end] == Replaced(done + [p], replacement) && Matches(done + [p]) == Matches(done)
    {
      hide Replaced, Matches;
      OnePiece(p, replacement);
      PiecesAppend(done, [p], replacement);
      end := Append(offset, p.text);
    }
  }

  lemma NothingExpands(found: string)
    ensures Expand("", found) == ""
  {
  }

  lemma Nothing(replacement: string)
    ensures Replaced([], replacement) == "" && Matches([]) == 0
  {
  }

  lemma OnlyGap(find: Matcher, s: string, everywhere: bool)
    requires Lawful(find) && find(s).None?
    ensures Pieces(find, s, everywhere) == [Gap(s)]
  {
  }

  /** What comes after a match in the whole text. */
  function Following(find: Matcher, text: string, start: nat, stop: nat, everywhere: bool): seq<Piece>
    requires Lawful(find) && start <= stop <= |text|
  {
    if !everywhere || (start == stop && stop == |text|) then [Gap(text[stop..])]
    else if start == stop then [Copied([text[stop]])] + Pieces(find, text[stop + 1..], everywhere)
    else Pieces(find, text[stop..], everywhere)
  }

  lemma SpanInside(find: Matcher, s: string)
    requires Lawful(find) && find(s).Some?
    ensures find(s).value.start <= find(s).value.end <= |s|
  {
  }

  lemma RegroupText(a: string, b: string, c: string)
    ensures a + (b + c) == (a + b) + c
  {
  }

  lemma Regroup(a: seq<Piece>, b: seq<Piece>, c: seq<Piece>)
    ensures a + (b + c) == (a + b) + c
  {
  }

  /** One turn of the loop, at its place in the whole text. */
  lemma Shown(find: Matcher, text: string, cursor: nat, start: nat, stop: nat, everywhere: bool)
    requires Lawful(find) && cursor <= start <= stop <= |text|
      && find(text[cursor..]) == Some(Span(start - cursor, stop - cursor))
    ensures Pieces(find, text[cursor..], everywhere) ==
      [Gap(text[cursor..start]), Match(text[start..stop])] + Following(find, text, start, stop, everywhere)
  {
    hide Pieces;
    var s := text[cursor..];
    PiecesStart(find, s, everywhere);
    assert s[..start - cursor] == text[cursor..start] && s[start - cursor..stop - cursor] == text[start..stop];
    assert s[stop - cursor..] == text[stop..];
    if stop < |text| { assert s[stop - cursor] == text[stop] && s[stop - cursor + 1..] == text[stop + 1..]; }
  }

  lemma ShownReplaced(gap: string, found: string, replacement: string)
    ensures
      var first := [Gap(gap), Match(found)];
      Replaced(first, replacement) == gap + Expand(replacement, found) && Matches(first) == 1
  {
    hide Replaced, Matches, Expand;
    OnePiece(Gap(gap), replacement);
    OnePiece(Match(found), replacement);
    TwoPieces(Gap(gap), Match(found), replacement);
  }

  /** What `gsub` and `sub` promise: `&` returns the text, and a quoted replacement fills every
      place that matched with exactly that text. */
  lemma SubstituteMeans(find: Matcher, text: string, everywhere: bool, inserted: string)
    requires Lawful(find)
    ensures
      var pieces := Pieces(find, text, everywhere);
      && Replaced(pieces, "&") == text
      && Replaced(pieces, Quoted(inserted)) == Filled(pieces, inserted)
      && (Matches(pieces) == 0 ==> Replaced(pieces, inserted) == text)
  {
    var pieces := Pieces(find, text, everywhere);
    PiecesAreTheText(find, text, everywhere);
    ReplacedByItself(pieces);
    QuotedFills(pieces, inserted);
    if Matches(pieces) == 0 { NoMatchNoChange(pieces, inserted); }
  }

  lemma {:induction false} NoMatchNoChange(pieces: seq<Piece>, replacement: string)
    requires Matches(pieces) == 0
    ensures Replaced(pieces, replacement) == Original(pieces)
  {
    if pieces != [] { NoMatchNoChange(pieces[1..], replacement); }
  }
}

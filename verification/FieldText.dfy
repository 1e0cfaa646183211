/** How a record divides into fields, and how fields make up a record again. */
module FieldText {
  import opened Options
  import opened CStrings
  import opened Texts

  // ----- A literal separator -----

  /** Cut at every separator, from the left. */
  function SplitOn(s: string, separator: string): (fields: seq<string>)
    requires separator != ""
    ensures fields != []
  {
    match FindSub(s, separator)
    case None => [s]
    case Some(i) => [s[..i]] + SplitOn(s[i + |separator|..], separator)
  }

  lemma SplitStart(s: string, separator: string)
    requires separator != ""
    ensures
      var found := FindSub(s, separator);
      SplitOn(s, separator) == if found.None? then [s]
        else [s[..found.value]] + SplitOn(s[found.value + |separator|..], separator)
  {
    hide FindSub, HasAt;
  }

  /** The pieces found so far, and the next one before the rest. */
  lemma NextPiece(done: seq<string>, s: string, separator: string)
    requires separator != ""
    ensures
      var found := FindSub(s, separator);
      done + SplitOn(s, separator) ==
        if found.None? then done + [s]
        else done + [s[..found.value]] + SplitOn(s[found.value + |separator|..], separator)
  {
    hide FindSub, HasAt, SplitOn;
    SplitStart(s, separator);
  }

  predicate Contains(s: string, sub: string) {
    exists i :: 0 <= i <= |s| && HasAt(s, sub, i)
  }

  /** How often `sub` occurs from the left, without overlap. */
  function Occurrences(s: string, sub: string): nat
    requires sub != ""
  {
    if s == "" then 0
    else if HasAt(s, sub, 0) then 1 + Occurrences(s[|sub|..], sub)
    else Occurrences(s[1..], sub)
  }

  lemma {:induction false} OccurrencesFrom(s: string, sub: string, i: nat)
    requires sub != "" && i <= |s| && forall j :: 0 <= j < i ==> !HasAt(s, sub, j)
    ensures Occurrences(s, sub) == Occurrences(s[i..], sub)
    decreases i
  {
    if i == 0 {
      assert s[0..] == s;
    } else {
      assert !HasAt(s, sub, 0);
      forall j | 0 <= j < i - 1
        ensures !HasAt(s[1..], sub, j)
      {
        HasAtNext(s, sub, j);
        assert !HasAt(s, sub, j + 1);
      }
      OccurrencesFrom(s[1..], sub, i - 1);
      assert s[1..][i - 1..] == s[i..];
    }
  }

  lemma {:induction false} NoOccurrence(s: string, sub: string)
    requires sub != "" && FindSub(s, sub).None?
    ensures Occurrences(s, sub) == 0
  {
    OccurrencesFrom(s, sub, |s|);
  }

  /** Joined again the fields are the record, no field holds the separator, and there is one more
      of them than the separator occurs. */
  lemma {:induction false} SplitIsExact(s: string, separator: string)
    requires separator != ""
    ensures Join(SplitOn(s, separator), separator) == s
    ensures forall f :: f in SplitOn(s, separator) ==> !Contains(f, separator)
    ensures |SplitOn(s, separator)| == 1 + Occurrences(s, separator)
    decreases |s|
  {
    hide SplitOn, FindSub, Occurrences;
    SplitStart(s, separator);
    match FindSub(s, separator)
    case None =>
      NoOccurrence(s, separator);
    case Some(i) =>
      var first, rest := s[..i], s[i + |separator|..];
      SplitIsExact(rest, separator);
      assert ([first] + SplitOn(rest, separator))[1..] == SplitOn(rest, separator);
      assert s == first + separator + rest;
      BeforeFirst(s, separator, i);
  }

  /** What lies before the first separator holds none, and the rest counts one less. */
  lemma BeforeFirst(s: string, separator: string, i: nat)
    requires separator != "" && HasAt(s, separator, i) && forall j :: 0 <= j < i ==> !HasAt(s, separator, j)
    ensures !Contains(s[..i], separator)
    ensures Occurrences(s, separator) == 1 + Occurrences(s[i + |separator|..], separator)
  {
    if Contains(s[..i], separator) {
      var j :| 0 <= j <= i && HasAt(s[..i], separator, j);
      assert s[j..j + |separator|] == s[..i][j..j + |separator|];
      assert HasAt(s, separator, j);
    }
    OccurrencesFrom(s, separator, i);
    assert HasAt(s[i..], separator, 0) by { assert s[i..][0..|separator|] == s[i..i + |separator|]; }
    assert s[i..][|separator|..] == s[i + |separator|..];
  }

  /** A single character separates uniquely: fields without it come back from their join. */
  lemma {:induction false} SplitUndoesJoin(fields: seq<string>, separator: char)
    requires fields != [] && forall f :: f in fields ==> separator !in f
    ensures SplitOn(Join(fields, [separator]), [separator]) == fields
    decreases fields
  {
    var s := Join(fields, [separator]);
    var found := FindSub(s, [separator]);
    assert fields == [fields[0]] + fields[1..];
    forall j | 0 <= j < |fields[0]|
      ensures !HasAt(s, [separator], j)
    {
      HasCharacter(s, separator, j);
      assert s[j] == fields[0][j] && fields[0][j] in fields[0];
    }
    HasCharacter(s, separator, |fields[0]|);
    if |fields| > 1 {
      var first, rest := fields[0], Join(fields[1..], [separator]);
      assert s == first + [separator] + rest;
      var i := found.value;
      assert i == |first|;
      assert s[..i] == first && s[i + 1..] == rest;
      SplitUndoesJoin(fields[1..], separator);
    }
  }

  // ----- Blanks -----

  predicate IsSpace(c: char) {
    c == ' ' || '\t' <= c <= '\r'
  }

  predicate Blank(s: string) {
    forall c :: c in s ==> IsSpace(c)
  }

  predicate Solid(s: string) {
    forall c :: c in s ==> !IsSpace(c)
  }

  /** The length of the blanks a text starts with. */
  function Blanks(s: string): (n: nat)
    ensures n <= |s| && Blank(s[..n]) && (n < |s| ==> !IsSpace(s[n]))
  {
    if s == "" || !IsSpace(s[0]) then 0 else
    var n := 1 + Blanks(s[1..]);
    assert s[..n] == [s[0]] + s[1..][..n - 1];
    n
  }

  /** The length of the word a text starts with. */
  function Word(s: string): (n: nat)
    ensures n <= |s| && Solid(s[..n]) && (n < |s| ==> IsSpace(s[n]))
    ensures s != "" && !IsSpace(s[0]) ==> n > 0
  {
    if s == "" || IsSpace(s[0]) then 0 else
    var n := 1 + Word(s[1..]);
    assert s[..n] == [s[0]] + s[1..][..n - 1];
    n
  }

  function Words(s: string): seq<string>
    decreases |s|
  {
    var b := Blanks(s);
    if b == |s| then [] else
    var w := Word(s[b..]);
    [s[b..b + w]] + Words(s[b + w..])
  }

  lemma OnlyBlanks(s: string)
    requires Blanks(s) == |s|
    ensures Words(s) == []
  {
  }

  lemma WordsStart(s: string, b: nat, w: nat)
    requires b == Blanks(s) < |s| && w == Word(s[b..])
    ensures Words(s) == [s[b..b + w]] + Words(s[b + w..])
  {
    hide Blanks, Word, Blank, Solid;
  }

  /** The blanks before each word, and after the last. */
  function Gaps(s: string): (gaps: seq<string>)
    ensures |gaps| == |Words(s)| + 1
    decreases |s|
  {
    var b := Blanks(s);
    if b == |s| then [s] else
    var w := Word(s[b..]);
    WordsStart(s, b, w);
    [s[..b]] + Gaps(s[b + w..])
  }

  predicate AllWords(words: seq<string>) {
    forall w :: w in words ==> w != "" && Solid(w)
  }

  /** The gaps are blank, and hold something between two words. */
  predicate AllGaps(gaps: seq<string>) {
    (forall g :: g in gaps ==> Blank(g)) && forall i :: 0 < i < |gaps| - 1 ==> gaps[i] != ""
  }

  /** The words are the record without its blanks: each is solid and not empty, and with the gaps
      they make up the record. */
  lemma {:induction false} WordsAreExact(s: string)
    ensures Woven(Gaps(s), Words(s)) == s && AllWords(Words(s)) && AllGaps(Gaps(s))
    ensures Gaps(s)[0] == "" ==> s == "" || !IsSpace(s[0])
    decreases |s|
  {
    var b := Blanks(s);
    if b < |s| {
      var w := Word(s[b..]);
      var gap, word, rest := s[..b], s[b..b + w], s[b + w..];
      FirstPieces(s, b, w);
      WordsStart(s, b, w);
      GapsStart(s, b, w);
      hide *;
      WordsAreExact(rest);
      Rejoined(s, b, w);
      NoWords(rest);
      WordsExactStep(s, gap, word, rest);
    } else {
      assert s[..b] == s;
    }
  }

  lemma WordsExactStep(s: string, gap: string, word: string, rest: string)
    requires s == gap + word + rest && Words(s) == [word] + Words(rest) && Gaps(s) == [gap] + Gaps(rest)
    requires Woven(Gaps(rest), Words(rest)) == rest && AllWords(Words(rest)) && AllGaps(Gaps(rest))
    requires Words(rest) != [] ==> Gaps(rest)[0] != ""
    requires Blank(gap) && word != "" && Solid(word)
    ensures Woven(Gaps(s), Words(s)) == s && AllWords(Words(s)) && AllGaps(Gaps(s))
  {
    hide *;
    WovenStart(gap, Gaps(rest), word, Words(rest));
    PiecesStart(gap, Gaps(rest), word, Words(rest));
  }

  lemma Rejoined(s: string, b: nat, w: nat)
    requires b + w <= |s|
    ensures s == s[..b] + s[b..b + w] + s[b + w..]
  {
  }

  lemma NoWords(s: string)
    ensures s == "" ==> Words(s) == []
  {
  }

  lemma PiecesStart(gap: string, gaps: seq<string>, word: string, words: seq<string>)
    requires |gaps| == |words| + 1 && AllWords(words) && AllGaps(gaps) && Blank(gap) && word != "" && Solid(word)
    requires words != [] ==> gaps[0] != ""
    ensures AllWords([word] + words) && AllGaps([gap] + gaps)
  {
  }

  lemma GapsStart(s: string, b: nat, w: nat)
    requires b == Blanks(s) < |s| && w == Word(s[b..])
    ensures Gaps(s) == [s[..b]] + Gaps(s[b + w..])
  {
    hide Blanks, Word, Blank, Solid;
  }

  /** The first gap, the first word, and what comes after it. */
  lemma FirstPieces(s: string, b: nat, w: nat)
    requires b == Blanks(s) < |s| && w == Word(s[b..])
    ensures Blank(s[..b]) && Solid(s[b..b + w]) && s[b..b + w] != ""
    ensures s[b + w..] == "" || IsSpace(s[b + w..][0])
    ensures b == 0 ==> !IsSpace(s[0])
  {
    hide Blank, Solid, IsSpace;
    assert s[b..b + w] == s[b..][..w];
    if b + w < |s| { assert s[b..][w] == s[b + w..][0]; }
  }

  // ----- What the runtime splits into -----

  /** An empty separator stands for blanks. */
  function Fields(record: string, separator: string): seq<string> {
    if separator == "" then Words(record) else SplitOn(record, separator)
  }

  lemma {:induction false} FieldsHaveNoNul(record: Text, separator: string)
    ensures forall f :: f in Fields(record, separator) ==> NoNul(f)
  {
    if separator == "" { WordsHaveNoNul(record); } else { SplitHasNoNul(record, separator); }
  }

  lemma {:induction false} WordsHaveNoNul(s: Text)
    ensures forall w :: w in Words(s) ==> NoNul(w)
    decreases |s|
  {
    var b := Blanks(s);
    if b < |s| {
      var w := Word(s[b..]);
      hide Words, Word, Blanks, Blank, Solid;
      WordsStart(s, b, w);
      WordsHaveNoNul(s[b + w..]);
    }
  }

  lemma {:induction false} SplitHasNoNul(s: Text, separator: string)
    requires separator != ""
    ensures forall f :: f in SplitOn(s, separator) ==> NoNul(f)
    decreases |s|
  {
    hide SplitOn, FindSub;
    SplitStart(s, separator);
    var found := FindSub(s, separator);
    if found.Some? { SplitHasNoNul(s[found.value + |separator|..], separator); }
  }
}

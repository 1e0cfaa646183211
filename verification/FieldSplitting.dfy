/** What the fields of a record are, said of the record alone: with the six blank characters written
    out, and of a separator through the places where it stands first. Each division into fields is the
    only one with its properties. */
module FieldSplitting {
  import opened Options
  import opened CStrings
  import opened Texts
  import opened FieldText
  import opened RecordState

  // ----- At blanks -----

  const SPACES := {' ', '\t', '\n', '\U{000B}', '\U{000C}', '\r'}

  predicate Spaces(s: string) {
    forall c :: c in s ==> c in SPACES
  }

  /** The fields are neither empty nor hold a blank character; what lies around them is blank, and between
      two of them not empty. Altogether that is the text. */
  predicate Divides(gaps: seq<string>, fields: seq<string>, text: string) {
    && |gaps| == |fields| + 1
    && (forall f :: f in fields ==> f != "" && forall c :: c in f ==> c !in SPACES)
    && (forall g :: g in gaps ==> Spaces(g))
    && (forall i :: 0 < i < |fields| ==> gaps[i] != "")
    && Woven(gaps, fields) == text
  }

  lemma SixSpaces(c: char)
    ensures IsSpace(c) <==> c in SPACES
  {
  }

  lemma {:induction false} LeadingSpaces(g: string, s: string)
    requires Spaces(g)
    ensures Words(g + s) == Words(s)
  {
    hide Words, IsSpace;
    if g == "" {
      assert g + s == s;
    } else {
      assert g[0] in g;
      SixSpaces(g[0]);
      BlankSkipped(g + s);
      assert (g + s)[1..] == g[1..] + s;
      LeadingSpaces(g[1..], s);
    }
  }

  lemma LeadingWord(f: string, s: string)
    requires f != "" && (forall c :: c in f ==> c !in SPACES) && (s == "" || s[0] in SPACES)
    ensures Words(f + s) == [f] + Words(s)
  {
    hide Words, IsSpace;
    var text := f + s;
    forall c ensures IsSpace(c) <==> c in SPACES { SixSpaces(c); }
    assert text[..|f|] == f && text[|f|..] == s;
    NextWord([], text, |f|);
    assert [] + Words(text) == Words(text) && [] + [f] == [f];
    if s != "" {
      BlankSkipped(s);
      assert text[|f|] == s[0] && text[|f| + 1..] == s[1..];
    } else {
      assert text == f;
    }
  }

  lemma WovenSpaces(gaps: seq<string>, fields: seq<string>, text: string)
    requires Divides(gaps, fields, text)
    ensures fields == [] ==> text == gaps[0]
    ensures fields != [] ==>
      var rest := Woven(gaps[1..], fields[1..]);
      && text == gaps[0] + (fields[0] + rest) && Divides(gaps[1..], fields[1..], rest)
      && (rest == "" || rest[0] in SPACES)
  {
    if fields != [] {
      var rest := Woven(gaps[1..], fields[1..]);
      assert gaps[0] + fields[0] + rest == gaps[0] + (fields[0] + rest);
      WovenBegins(gaps[1..], fields[1..]);
      SpaceAfter(gaps, fields, rest);
      DividesOn(gaps, fields);
    }
  }

  lemma SpaceAfter(gaps: seq<string>, fields: seq<string>, rest: string)
    requires |gaps| == |fields| + 1 && fields != [] && Spaces(gaps[1]) && gaps[1] <= rest
    requires if |fields| == 1 then rest == gaps[1] else gaps[1] != ""
    ensures rest == "" || rest[0] in SPACES
  {
    if gaps[1] != "" { assert rest[0] == gaps[1][0] && gaps[1][0] in gaps[1]; }
  }

  lemma DividesOn(gaps: seq<string>, fields: seq<string>)
    requires |gaps| == |fields| + 1 && fields != [] && Divides(gaps, fields, Woven(gaps, fields))
    ensures Divides(gaps[1..], fields[1..], Woven(gaps[1..], fields[1..]))
  {
    hide Woven, Spaces;
    forall f | f in fields[1..]
      ensures f != "" && forall c :: c in f ==> c !in SPACES
    {
      assert f in fields;
    }
    forall g | g in gaps[1..]
      ensures Spaces(g)
    {
      assert g in gaps;
    }
    forall i | 0 < i < |fields[1..]|
      ensures gaps[1..][i] != ""
    {
      assert gaps[1..][i] == gaps[i + 1];
    }
  }

  /** There is no other way to divide a text. */
  lemma {:induction false} OnlyWords(gaps: seq<string>, fields: seq<string>, text: string)
    requires Divides(gaps, fields, text)
    ensures Words(text) == fields
    decreases fields
  {
    hide Words, Woven, Divides, Spaces;
    WovenSpaces(gaps, fields, text);
    FirstDivided(gaps, fields, text);
    if fields == [] {
      LeadingSpaces(gaps[0], "");
      assert gaps[0] + "" == gaps[0];
      NoWords("");
    } else {
      var rest := Woven(gaps[1..], fields[1..]);
      LeadingSpaces(gaps[0], fields[0] + rest);
      LeadingWord(fields[0], rest);
      OnlyWords(gaps[1..], fields[1..], rest);
      assert fields == [fields[0]] + fields[1..];
    }
  }

  lemma FirstDivided(gaps: seq<string>, fields: seq<string>, text: string)
    requires Divides(gaps, fields, text)
    ensures |gaps| == |fields| + 1 && Spaces(gaps[0])
    ensures fields != [] ==> fields[0] != "" && forall c :: c in fields[0] ==> c !in SPACES
  {
    assert |gaps| == |fields| + 1;
    assert gaps[0] in gaps && (fields != [] ==> fields[0] in fields);
  }

  lemma WordsDivide(text: string)
    ensures Divides(Gaps(text), Words(text), text)
  {
    hide IsSpace, Woven;
    WordsAreExact(text);
    var gaps, fields := Gaps(text), Words(text);
    forall c ensures IsSpace(c) <==> c in SPACES { SixSpaces(c); }
    forall f | f in fields
      ensures f != "" && forall c :: c in f ==> c !in SPACES
    {
      assert Solid(f);
    }
    forall g | g in gaps
      ensures Spaces(g)
    {
      assert Blank(g);
    }
  }

  /** With a blank or nothing as field separator a new record has just the fields that lie between blanks. */
  lemma SplitAtBlanks(s: State, separator: Text, text: Text)
    requires separator == "" || separator == " "
    ensures
      var t := Apply(Apply(s, SetFS(separator)), NewRecord(text));
      && t.Get(0) == text && t.nf == |t.fields| && (exists gaps :: Divides(gaps, t.fields, text))
      && forall gaps, fields | Divides(gaps, fields, text) :: t.fields == fields
  {
    hide Divides, Words;
    WordsDivide(text);
    forall gaps, fields | Divides(gaps, fields, text)
      ensures Words(text) == fields
    {
      OnlyWords(gaps, fields, text);
    }
  }

  // ----- At a separator -----

  /** Each field ends where the separator first comes after its beginning, and the last where it comes no more. */
  predicate Cuts(fields: seq<string>, separator: string, text: string) {
    && fields != [] && Join(fields, separator) == text
    && forall i, j :: 0 <= i < |fields| && 0 <= j < |fields[i]| ==> !HasAt(Join(fields[i..], separator), separator, j)
  }

  lemma CutOff(fields: seq<string>, separator: string, text: string)
    requires Cuts(fields, separator, text) && |fields| > 1
    ensures Cuts(fields[1..], separator, Join(fields[1..], separator))
  {
    hide HasAt, Join;
    forall i, j | 0 <= i < |fields[1..]| && 0 <= j < |fields[1..][i]|
      ensures !HasAt(Join(fields[1..][i..], separator), separator, j)
    {
      assert fields[1..][i..] == fields[i + 1..] && fields[1..][i] == fields[i + 1];
    }
  }

  lemma {:induction false} OnlyCuts(fields: seq<string>, separator: string, text: string)
    requires separator != "" && Cuts(fields, separator, text)
    ensures SplitOn(text, separator) == fields
    decreases fields
  {
    hide HasAt, SplitOn, Cuts;
    FirstCut(fields, separator, text);
    SplitStart(text, separator);
    if |fields| > 1 {
      CutOff(fields, separator, text);
      OnlyCuts(fields[1..], separator, Join(fields[1..], separator));
      assert fields == [fields[0]] + fields[1..];
    }
  }

  lemma FirstCut(fields: seq<string>, separator: string, text: string)
    requires separator != "" && Cuts(fields, separator, text)
    ensures fields != [] && forall j :: 0 <= j < |fields[0]| ==> !HasAt(text, separator, j)
    ensures |fields| == 1 ==> FindSub(text, separator) == None && fields == [text]
    ensures |fields| > 1 ==>
      FindSub(text, separator) == Some(|fields[0]|) && text[..|fields[0]|] == fields[0]
      && text[|fields[0]| + |separator|..] == Join(fields[1..], separator)
  {
    assert fields[0..] == fields;
    hide FindSub;
    if |fields| > 1 {
      assert text == fields[0] + separator + Join(fields[1..], separator);
      assert HasAt(text, separator, |fields[0]|);
    } else {
      assert text == fields[0];
    }
  }

  lemma {:induction false} SplitCuts(text: string, separator: string)
    requires separator != ""
    ensures Cuts(SplitOn(text, separator), separator, text)
    decreases |text|
  {
    hide HasAt, SplitOn, Cuts;
    SplitStart(text, separator);
    var found := FindSub(text, separator);
    if found.None? {
      OneCut(text, separator);
    } else {
      Inside(text, separator, found.value);
      var first, rest := text[..found.value], text[found.value + |separator|..];
      SplitCuts(rest, separator);
      Rejoins(text, separator, found.value);
      JoinedAgain(SplitOn(rest, separator), separator, rest);
      MoreCuts(first, SplitOn(rest, separator), separator, text);
    }
  }

  lemma Inside(text: string, separator: string, i: nat)
    requires HasAt(text, separator, i)
    ensures i + |separator| <= |text|
  {
  }

  lemma JoinedAgain(fields: seq<string>, separator: string, text: string)
    requires Cuts(fields, separator, text)
    ensures Join(fields, separator) == text
  {
  }

  lemma OneCut(text: string, separator: string)
    requires forall j :: 0 <= j <= |text| ==> !HasAt(text, separator, j)
    ensures Cuts([text], separator, text)
  {
    hide HasAt;
    assert [text][0..] == [text];
  }

  lemma Rejoins(text: string, separator: string, i: nat)
    requires HasAt(text, separator, i)
    ensures text == text[..i] + separator + text[i + |separator|..]
  {
  }

  lemma MoreCuts(first: string, fields: seq<string>, separator: string, text: string)
    requires Cuts(fields, separator, Join(fields, separator)) && text == first + separator + Join(fields, separator)
    requires forall j :: 0 <= j < |first| ==> !HasAt(text, separator, j)
    ensures Cuts([first] + fields, separator, text)
  {
    hide HasAt;
    var all := [first] + fields;
    assert all[1..] == fields;
    assert Join(all, separator) == text;
    hide Join;
    forall i, j | 0 <= i < |all| && 0 <= j < |all[i]|
      ensures !HasAt(Join(all[i..], separator), separator, j)
    {
      if i == 0 { assert all[0..] == all; } else { assert all[i..] == fields[i - 1..] && all[i] == fields[i - 1]; }
    }
  }

  /** With any other field separator a new record has just the fields cut off where the separator comes first. */
  lemma SplitAtSeparator(s: State, separator: Text, text: Text)
    requires separator != "" && separator != " "
    ensures
      var t := Apply(Apply(s, SetFS(separator)), NewRecord(text));
      && t.Get(0) == text && t.nf == |t.fields| && Cuts(t.fields, separator, text)
      && forall fields | Cuts(fields, separator, text) :: t.fields == fields
  {
    hide Cuts, SplitOn;
    SplitCuts(text, separator);
    forall fields | Cuts(fields, separator, text)
      ensures SplitOn(text, separator) == fields
    {
      OnlyCuts(fields, separator, text);
    }
  }
}

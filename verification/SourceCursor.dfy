/** The cursor over several program files, which makes them look like one text with every file but
    the last ending in a newline. */
module SourceCursor {
  import opened Options

  predicate EndsInNewline(text: string) {
    text != "" && text[|text| - 1] == '\n'
  }

  /** What comes after a file's own text. */
  function Separator(files: seq<string>, i: nat): string
    requires i < |files|
  {
    if i + 1 < |files| && !EndsInNewline(files[i]) then "\n" else ""
  }

  /** The files from number `i` on as one text. */
  function FlatFrom(files: seq<string>, i: nat): string
    requires i <= |files|
    decreases |files| - i
  {
    if i == |files| then "" else files[i] + (Separator(files, i) + FlatFrom(files, i + 1))
  }

  function Flat(files: seq<string>): string {
    FlatFrom(files, 0)
  }

  datatype Point = Point(fileIndex: nat, offset: nat)

  lemma {:induction false} FlatShrinks(files: seq<string>, i: nat, j: nat)
    requires i <= j <= |files|
    ensures |FlatFrom(files, j)| <= |FlatFrom(files, i)|
    decreases j - i
  {
    if i < j { FlatShrinks(files, i + 1, j); }
  }

  /** How far into the one text a point lies. */
  function FlatOffset(files: seq<string>, p: Point): int
    requires p.fileIndex <= |files|
  {
    |Flat(files)| - |FlatFrom(files, p.fileIndex)| + p.offset
  }

  /** The text from a place in a file on. */
  function RestAt(files: seq<string>, i: nat, o: nat): string
    requires files != [] ==> i < |files| && o <= |files[i]|
  {
    if files == [] then "" else files[i][o..] + (Separator(files, i) + FlatFrom(files, i + 1))
  }

  lemma RestAtStart(files: seq<string>)
    ensures RestAt(files, 0, 0) == Flat(files)
  {
    if files != [] { assert files[0][0..] == files[0]; }
  }

  /** One character on: inside a file, over its own newline, or over the newline supplied for it. */
  lemma RestStep(files: seq<string>, i: nat, o: nat)
    requires files != [] ==> i < |files| && o <= |files[i]|
    ensures files == [] ==> RestAt(files, i, o) == ""
    ensures files != [] && o < |files[i]| ==> RestAt(files, i, o) == [files[i][o]] + RestAt(files, i, o + 1)
    ensures files != [] && o == |files[i]| && i + 1 < |files| ==>
      RestAt(files, i, o) == Separator(files, i) + RestAt(files, i + 1, 0)
    ensures files != [] && o == |files[i]| && i + 1 == |files| ==> RestAt(files, i, o) == ""
  {
    if files != [] {
      if o < |files[i]| {
        Longer(files[i], o, Separator(files, i) + FlatFrom(files, i + 1));
        hide Separator, FlatFrom;
      } else {
        LastRest(files, i);
        if i + 1 < |files| { NextRest(files, i); }
      }
    }
  }

  lemma Longer(text: string, o: nat, more: string)
    requires o < |text|
    ensures text[o..] + more == [text[o]] + (text[o + 1..] + more)
  {
  }

  lemma LastRest(files: seq<string>, i: nat)
    requires i < |files|
    ensures RestAt(files, i, |files[i]|) == Separator(files, i) + FlatFrom(files, i + 1)
  {
    hide Separator, FlatFrom;
  }

  lemma NextRest(files: seq<string>, i: nat)
    requires i + 1 < |files|
    ensures FlatFrom(files, i + 1) == RestAt(files, i + 1, 0)
  {
    hide Separator;
    assert files[i + 1][0..] == files[i + 1];
  }

  lemma Dropped(all: string, i: nat, c: char, tail: string)
    requires i <= |all| && all[i..] == [c] + tail
    ensures i < |all| && all[i] == c && all[i + 1..] == tail
  {
    assert all[i..][0] == c;
    assert all[i + 1..] == all[i..][1..];
  }

  lemma RestLength(files: seq<string>, i: nat, o: nat)
    requires if files == [] then i == 0 else i < |files| && o <= |files[i]|
    ensures files == [] ==> |Flat(files)| == |RestAt(files, i, o)| == |FlatFrom(files, i)| == 0
    ensures files != [] ==> |RestAt(files, i, o)| == |FlatFrom(files, i)| - o
  {
    hide Separator;
  }

  class Cursor {
    const files: seq<string>
    var fileIndex: nat
    var offset: nat
    var atBoundaryNewline: bool

    constructor (files: seq<string>)
      ensures Valid() && this.files == files && Rest() == Flat(files)
    {
      this.files := files;
      fileIndex, offset, atBoundaryNewline := 0, 0, false;
      RestAtStart(files);
    }

    ghost predicate Valid()
      reads this
    {
      if files == [] then fileIndex == 0 && !atBoundaryNewline
      else
        && fileIndex < |files| && offset <= |files[fileIndex]|
        && (atBoundaryNewline ==> offset == |files[fileIndex]| && Separator(files, fileIndex) == "\n")
    }

    /** The text still to come. */
    ghost function Rest(): string
      requires Valid()
      reads this
    {
      RestAt(files, fileIndex, offset)
    }

    /** Nothing left in this file, and more to come: at the newline between it and the next. */
    ghost predicate Normalized()
      requires Valid()
      reads this
    {
      files == [] || atBoundaryNewline || offset < |files[fileIndex]| || fileIndex + 1 == |files|
    }

    /** Advance past exhausted files; the text to come stays the same. */
    method Normalize()
      requires Valid()
      modifies this`fileIndex, this`offset, this`atBoundaryNewline
      ensures Valid() && Normalized() && Rest() == old(Rest())
    {
      hide RestAt;
      while files != [] && fileIndex < |files|
        invariant Valid() && Rest() == old(Rest())
        decreases |files| - fileIndex
      {
        if atBoundaryNewline {
          return;
        }
        if offset < |files[fileIndex]| {
          return;
        }
        if fileIndex + 1 >= |files| {
          return;
        }
        RestStep(files, fileIndex, offset);
        if EndsInNewline(files[fileIndex]) {
          fileIndex := fileIndex + 1;
          offset := 0;
        } else {
          atBoundaryNewline := true;
          return;
        }
      }
    }

    method IsAtEnd() returns (end: bool)
      requires Valid()
      modifies this`fileIndex, this`offset, this`atBoundaryNewline
      ensures Valid() && Normalized() && Rest() == old(Rest()) && end == (Rest() == "")
    {
      Normalize();
      hide RestAt;
      RestStep(files, fileIndex, offset);
      if files == [] {
        return true;
      }
      if atBoundaryNewline {
        return false;
      }
      var last := |files| - 1;
      end := fileIndex == last && offset >= |files[last]|;
    }

    method PeekHere() returns (c: Option<char>)
      requires Valid()
      modifies this`fileIndex, this`offset, this`atBoundaryNewline
      ensures Valid() && Normalized() && Rest() == old(Rest())
      ensures c == if Rest() == "" then None else Some(Rest()[0])
    {
      hide RestAt;
      var end := IsAtEnd();
      RestStep(files, fileIndex, offset);
      if end {
        return None;
      }
      if atBoundaryNewline {
        return Some('\n');
      }
      c := Some(files[fileIndex][offset]);
    }

    /** The character `k` places ahead, found by a cursor of its own. */
    method Peek(k: nat) returns (c: Option<char>)
      requires Valid()
      modifies this`fileIndex, this`offset, this`atBoundaryNewline
      ensures Valid() && Rest() == old(Rest())
      ensures c == if k < |Rest()| then Some(Rest()[k]) else None
    {
      hide RestAt;
      Normalize();
      if k == 0 {
        c := PeekHere();
        return;
      }
      var probe := new Cursor(files);
      probe.fileIndex, probe.offset, probe.atBoundaryNewline := fileIndex, offset, atBoundaryNewline;
      ghost var rest := Rest();
      for i := 0 to k
        invariant Valid() && Rest() == rest && probe.Valid() && fresh(probe) && i <= |rest| && probe.Rest() == rest[i..]
      {
        var step := probe.Advance();
        if step == None {
          return None;
        }
        Dropped(rest, i, step.value, probe.Rest());
      }
      c := probe.PeekHere();
    }

    method Advance() returns (c: Option<char>)
      requires Valid()
      modifies this`fileIndex, this`offset, this`atBoundaryNewline
      ensures Valid()
      ensures old(Rest()) == "" ==> c == None && Rest() == ""
      ensures old(Rest()) != "" ==> c.Some? && old(Rest()) == [c.value] + Rest()
    {
      hide RestAt;
      c := PeekHere();
      if c == None {
        return;
      }
      RestStep(files, fileIndex, offset);
      if atBoundaryNewline {
        fileIndex := fileIndex + 1;
        offset := 0;
        atBoundaryNewline := false;
        return;
      }
      offset := offset + 1;
    }

    /** The point in the files the cursor stands at. */
    method CurrentPoint() returns (p: Point)
      requires Valid()
      modifies this`fileIndex, this`offset, this`atBoundaryNewline
      ensures Valid() && Rest() == old(Rest()) && p.fileIndex <= |files|
      ensures FlatOffset(files, p) == |Flat(files)| - |Rest()|
      ensures files != [] ==> p.fileIndex < |files| && p.offset <= |files[p.fileIndex]|
    {
      hide RestAt, Flat;
      Normalize();
      RestLength(files, fileIndex, offset);
      if atBoundaryNewline && fileIndex < |files| {
        return Point(fileIndex, |files[fileIndex]|);
      }
      var end := IsAtEnd();
      RestLength(files, fileIndex, offset);
      if end {
        if files == [] {
          return Point(0, 0);
        }
        RestLength(files, |files| - 1, |files[|files| - 1]|);
        RestStep(files, |files| - 1, |files[|files| - 1]|);
        return Point(|files| - 1, |files[|files| - 1]|);
      }
      p := Point(fileIndex, offset);
    }
  }

  /** Advancing again and again reads the one text. */
  method ReadAll(files: seq<string>) returns (text: string)
    ensures text == Flat(files)
  {
    hide RestAt, Flat;
    var cursor := new Cursor(files);
    text := "";
    var end := cursor.IsAtEnd();
    while !end
      invariant cursor.Valid() && fresh(cursor) && cursor.files == files
      invariant text + cursor.Rest() == Flat(files) && end == (cursor.Rest() == "")
      decreases |cursor.Rest()|
    {
      var c := cursor.Advance();
      text := text + [c.value];
      end := cursor.IsAtEnd();
    }
  }

  // ----- The one text, said of the files alone -----

  /** The texts one after another. */
  function Together(texts: seq<string>): string {
    if texts == [] then "" else texts[0] + Together(texts[1..])
  }

  /** The files as they are joined: a newline more for each but the last that does not end in one. */
  ghost predicate Completed(files: seq<string>, texts: seq<string>) {
    && |texts| == |files|
    && (files != [] ==> texts[|files| - 1] == files[|files| - 1])
    && forall i :: 0 <= i < |files| - 1 ==>
        (texts[i] == files[i] || texts[i] == files[i] + "\n") && texts[i] != "" && texts[i][|texts[i]| - 1] == '\n'
          && (texts[i] != files[i] ==> files[i] == "" || files[i][|files[i]| - 1] != '\n')
  }

  /** That makes the one text. */
  lemma FilesTogether(files: seq<string>)
    ensures exists texts :: Completed(files, texts)
    ensures forall texts | Completed(files, texts) :: Flat(files) == Together(texts)
  {
    var texts := seq(|files|, i requires 0 <= i < |files| => files[i] + Separator(files, i));
    assert files != [] ==> texts[|files| - 1] == files[|files| - 1];
    assert Completed(files, texts);
    forall texts | Completed(files, texts)
      ensures Flat(files) == Together(texts)
    {
      TogetherFrom(files, texts, 0);
      assert texts[0..] == texts;
    }
  }

  lemma {:induction false} TogetherFrom(files: seq<string>, texts: seq<string>, i: nat)
    requires Completed(files, texts) && i <= |files|
    ensures FlatFrom(files, i) == Together(texts[i..])
    decreases |files| - i
  {
    hide Separator, Completed;
    SameNumber(files, texts);
    if i < |files| {
      TogetherFrom(files, texts, i + 1);
      assert texts[i..][1..] == texts[i + 1..] && texts[i..][0] == texts[i];
      OneCompleted(files, texts, i);
      Grouped(files[i], Separator(files, i), FlatFrom(files, i + 1));
    }
  }

  lemma SameNumber(files: seq<string>, texts: seq<string>)
    requires Completed(files, texts)
    ensures |texts| == |files|
  {
  }

  lemma Grouped(a: string, b: string, c: string)
    ensures (a + b) + c == a + (b + c)
  {
  }

  lemma OneCompleted(files: seq<string>, texts: seq<string>, i: nat)
    requires Completed(files, texts) && i < |files|
    ensures texts[i] == files[i] + Separator(files, i)
  {
    assert files[i] + "" == files[i];
  }

  /** The one text is the files in order: each file's text is found where its points say it is. */
  lemma {:induction false} FileIsInFlat(files: seq<string>, i: nat, o: nat)
    requires i < |files| && o < |files[i]|
    ensures 0 <= FlatOffset(files, Point(i, o)) < |Flat(files)|
      && Flat(files)[FlatOffset(files, Point(i, o))] == files[i][o]
  {
    FlatSuffix(files, i);
    FlatShrinks(files, 0, i);
    var at := |Flat(files)| - |FlatFrom(files, i)|;
    assert Flat(files)[at + o] == Flat(files)[at..][o];
  }

  lemma {:induction false} FlatSuffix(files: seq<string>, i: nat)
    requires i <= |files|
    ensures |FlatFrom(files, i)| <= |Flat(files)|
      && Flat(files)[|Flat(files)| - |FlatFrom(files, i)|..] == FlatFrom(files, i)
    decreases i
  {
    if i > 0 {
      FlatSuffix(files, i - 1);
      var all, before, rest := Flat(files), FlatFrom(files, i - 1), FlatFrom(files, i);
      assert before == files[i - 1] + (Separator(files, i - 1) + rest);
      assert all[|all| - |rest|..] == all[|all| - |before|..][|before| - |rest|..];
    }
  }

  /** Points later in the text are later points, so diagnostics come in the order of the text. */
  lemma {:induction false} PointsKeepOrder(files: seq<string>, p: Point, q: Point)
    requires p.fileIndex < |files| && p.offset <= |files[p.fileIndex]| && q.fileIndex < |files|
      && q.offset <= |files[q.fileIndex]|
    requires FlatOffset(files, p) < FlatOffset(files, q)
    ensures p.fileIndex < q.fileIndex || (p.fileIndex == q.fileIndex && p.offset < q.offset)
  {
    if q.fileIndex < p.fileIndex { FlatShrinks(files, q.fileIndex + 1, p.fileIndex); }
  }
}

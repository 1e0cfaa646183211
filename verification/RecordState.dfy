/** The current record and its fields as texts, what each operation makes of them, and the facts
    about buffers that the runtime's own representation rests on. */
module RecordState {
  import opened Options
  import opened CStrings
  import opened FieldText

  // ----- The abstract record -----

  /** Where record and fields last came from: splitting, or joining. */
  datatype Origin = Split(separator: Text) | Joined(separator: Text)

  datatype State = State(
    record: Option<Text>,
    fields: seq<Text>,
    nf: nat,
    fieldSeparator: Text,
    outputSeparator: Text,
    origin: Origin)
  {
    function Get(index: int): Text {
      if record.None? || index < 0 then ""
      else if index == 0 then record.value
      else if index - 1 < |fields| then fields[index - 1]
      else ""
    }

    /** Fields and record agree in the way they were last made to, and NF counts the fields. */
    ghost predicate Consistent() {
      && nf == |fields|
      && (record.None? ==> fields == [])
      && (record.Some? ==>
        match origin
        case Split(separator) => fields == Fields(record.value, separator)
        case Joined(separator) => record.value == Join(fields, separator))
    }
  }

  datatype Op =
    | NewRecord(text: Text)
    | SetField(index: int, value: Text)
    | SetNF(count: nat)
    | SetFS(text: Text)
    | SetOFS(text: Text)

  /** `n` fields, the one numbered `index` replaced and missing ones empty. */
  function Respread(fields: seq<Text>, n: nat, index: int, value: Text): (r: seq<Text>)
    ensures |r| == n
  {
    seq(n, k requires 0 <= k < n => FieldValue(fields, k, index, value))
  }

  lemma RespreadAt(fields: seq<Text>, n: nat, index: int, value: Text, k: nat)
    requires k < n
    ensures Respread(fields, n, index, value)[k] == FieldValue(fields, k, index, value)
  {
  }

  function FieldValue(fields: seq<Text>, k: nat, index: int, value: Text): Text {
    if index > 0 && k + 1 == index then value else if k < |fields| then fields[k] else ""
  }

  function WithRecord(s: State, text: Text): State {
    FieldsHaveNoNul(text, s.fieldSeparator);
    var fields: seq<Text> := Fields(text, s.fieldSeparator);
    s.(record := Some(text), fields := fields, nf := |fields|, origin := Split(s.fieldSeparator))
  }

  function WithFields(s: State, fields: seq<Text>): State {
    JoinHasNoNul(fields, s.outputSeparator);
    s.(record := Some(Join(fields, s.outputSeparator)), fields := fields, nf := |fields|,
       origin := Joined(s.outputSeparator))
  }

  lemma {:induction false} JoinHasNoNul(fields: seq<Text>, separator: Text)
    ensures NoNul(Join(fields, separator))
  {
    if |fields| > 1 { JoinHasNoNul(fields[1..], separator); }
  }

  /** A single blank, like nothing at all, means splitting at blanks. */
  function SeparatorOf(text: Text): Text {
    if text == " " then "" else text
  }

  function Apply(s: State, op: Op): State {
    match op
    case NewRecord(text) => WithRecord(s, text)
    case SetField(index, value) =>
      if index < 0 then s
      else if index == 0 then WithRecord(s, value)
      else if s.record.None? then s
      else WithFields(s, Respread(s.fields, if |s.fields| < index then index else |s.fields|, index, value))
    case SetNF(count) => if s.record.None? then s else WithFields(s, Respread(s.fields, count, -1, ""))
    case SetFS(text) => s.(fieldSeparator := SeparatorOf(text))
    case SetOFS(text) => s.(outputSeparator := text)
  }

  function Run(s: State, ops: seq<Op>): State {
    if ops == [] then s else Apply(Run(s, ops[..|ops| - 1]), ops[|ops| - 1])
  }

  // ----- What users of fields rely on -----

  /** Over every run, NF counts the fields, and record and fields agree. */
  lemma {:induction false} RunStaysConsistent(s: State, ops: seq<Op>)
    requires s.Consistent()
    ensures Run(s, ops).Consistent()
  {
    if ops != [] { RunStaysConsistent(s, ops[..|ops| - 1]); }
  }

  /** After `$index = value`, that field reads back, every other field keeps its value, fields in
      between read empty, and `$0` is the fields joined with OFS. */
  lemma AssignedField(s: State, index: int, value: Text, other: int)
    requires s.record.Some? && index > 0 && other > 0
    ensures
      var t := Apply(s, SetField(index, value));
      && t.Get(index) == value
      && (other != index ==> t.Get(other) == s.Get(other))
      && (|s.fields| < other < index ==> t.Get(other) == "")
      && t.nf == (if |s.fields| < index then index else |s.fields|)
      && t.Get(0) == Join(t.fields, s.outputSeparator)
  {
  }

  /** After `NF = count` the first fields keep their values, new ones are empty, others are gone. */
  lemma AssignedCount(s: State, count: nat, other: int)
    requires s.record.Some? && other > 0
    ensures
      var t := Apply(s, SetNF(count));
      && t.nf == count && t.Get(other) == (if other <= count then s.Get(other) else "")
      && t.Get(0) == Join(t.fields, s.outputSeparator)
  {
  }

  /** A new FS changes no field until the next record or `$0 = text`, and is used there. */
  lemma SeparatorTakesEffectLater(s: State, separator: Text, index: int, text: Text)
    ensures
      var t := Apply(s, SetFS(separator));
      && t.Get(index) == s.Get(index) && t.nf == s.nf
      && Apply(t, NewRecord(text)).fields == Fields(text, SeparatorOf(separator))
      && Apply(t, SetField(0, text)) == Apply(t, NewRecord(text))
  {
  }

  /** With single-character separators that fields do not contain, `$0 = $0` after `$i = v` gives
      the same fields again. */
  lemma ResplitGivesTheSameFields(s: State, index: int, value: Text, separator: char)
    requires s.record.Some? && index > 0 && s.outputSeparator == [separator] && s.fieldSeparator == [separator]
    requires separator !in value && forall f :: f in s.fields ==> separator !in f
    ensures
      var t := Apply(s, SetField(index, value));
      Apply(t, SetField(0, t.Get(0))).fields == t.fields
  {
    var t := Apply(s, SetField(index, value));
    forall f | f in t.fields
      ensures separator !in f
    {
      var k :| 0 <= k < |t.fields| && t.fields[k] == f;
      if k + 1 != index && k < |s.fields| { assert s.fields[k] in s.fields; }
    }
    SplitUndoesJoin(t.fields, separator);
  }

  /** An empty record has no fields when split at blanks, but one empty field when split at a
      separator. */
  lemma EmptyRecord(s: State)
    ensures Apply(s, NewRecord("")).nf == if s.fieldSeparator == "" then 0 else 1
  {
    if s.fieldSeparator != "" {
      var found := FindSub("", s.fieldSeparator);
      assert found.None?;
    }
  }

  // ----- Laying fields out -----

  /** The first `i` of `n` fields with the separators between them. */
  function Laid(fields: seq<Text>, i: nat, separator: Text): string
    requires i <= |fields|
  {
    if i == 0 then "" else Laid(fields, i - 1, separator) + fields[i - 1] + (if i < |fields| then separator else "")
  }

  /** The first `i` fields, each with its NUL. */
  function Packed(fields: seq<Text>, i: nat): string
    requires i <= |fields|
  {
    if i == 0 then "" else Packed(fields, i - 1) + fields[i - 1] + [NUL]
  }

  lemma {:induction false} LaidIsJoined(fields: seq<Text>, i: nat, separator: Text)
    requires 0 < i <= |fields|
    ensures Laid(fields, i, separator) == Join(fields[..i], separator) + (if i < |fields| then separator else "")
    decreases i
  {
    if i > 1 {
      LaidIsJoined(fields, i - 1, separator);
      assert fields[..i] == fields[..i - 1] + [fields[i - 1]];
      JoinLast(fields[..i - 1], fields[i - 1], separator);
    } else {
      assert fields[..1] == [fields[0]];
      assert Laid(fields, 0, separator) == "";
    }
  }

  lemma LaidOut(fields: seq<Text>, separator: Text)
    ensures Laid(fields, |fields|, separator) == Join(fields, separator)
  {
    if fields != [] {
      LaidIsJoined(fields, |fields|, separator);
      assert fields[..|fields|] == fields;
    }
  }

  lemma {:induction false} LaidGrows(fields: seq<Text>, i: nat, j: nat, separator: Text)
    requires i <= j <= |fields|
    ensures |Laid(fields, i, separator)| <= |Laid(fields, j, separator)| && |Packed(fields, i)| <= |Packed(fields, j)|
    decreases j
  {
    if i < j { LaidGrows(fields, i, j - 1, separator); }
  }

  lemma {:induction false} PackedPrefix(fields: seq<Text>, i: nat, j: nat)
    requires i <= j <= |fields|
    ensures Packed(fields, i) <= Packed(fields, j)
    decreases j
  {
    if i < j { PackedPrefix(fields, i, j - 1); }
  }

  /** In a buffer of packed fields each starts where the ones before it end. */
  lemma PackedText(fields: seq<Text>, buffer: seq<char>, k: nat)
    requires k < |fields| && Packed(fields, |fields|) <= buffer
    ensures Terminated(buffer, |Packed(fields, k)|) && TextAt(buffer, |Packed(fields, k)|) == fields[k]
  {
    var at, f := |Packed(fields, k)|, fields[k];
    var all := Packed(fields, k + 1);
    PackedPrefix(fields, k + 1, |fields|);
    assert all == Packed(fields, k) + f + [NUL] && |all| == at + |f| + 1;
    assert buffer[..|all|] == all;
    assert buffer[at..at + |f|] == all[at..at + |f|] == f;
    assert buffer[at + |f|] == all[at + |f|];
    TextIs(buffer, at, f);
  }

  // ----- Pointers -----

  datatype Ptr = Null | At(buffer: array<char>, offset: nat)

  /** The pointers lead into `b`, whose contents are given, to the texts. */
  ghost predicate Holds(contents: seq<char>, b: array?<char>, ptrs: seq<Ptr>, texts: seq<string>) {
    && |ptrs| == |texts|
    && forall k :: 0 <= k < |ptrs| ==>
        ptrs[k].At? && ptrs[k].buffer == b && Terminated(contents, ptrs[k].offset)
          && TextAt(contents, ptrs[k].offset) == texts[k]
  }

  /** And all of them end before `limit`. */
  ghost predicate Before(ptrs: seq<Ptr>, texts: seq<string>, limit: nat) {
    |ptrs| == |texts| && forall k :: 0 <= k < |ptrs| ==> ptrs[k].At? && ptrs[k].offset + |texts[k]| < limit
  }

  /** A NUL written into the text at `start` cuts it in two. */
  lemma Cut(contents: seq<char>, later: seq<char>, start: nat, i: nat)
    requires Terminated(contents, start) && i < |TextAt(contents, start)|
    requires later == contents[start + i := NUL]
    ensures TextAt(later, start) == TextAt(contents, start)[..i] && Terminated(later, start)
  {
    hide TextAt;
    var rest := TextAt(contents, start);
    assert contents[start..start + |rest|] == rest;
    assert later[start..start + i] == rest[..i];
    TextIs(later, start, rest[..i]);
  }

  /** What follows a NUL in a text is still there. */
  lemma AfterCut(contents: seq<char>, later: seq<char>, start: nat, i: nat, j: nat)
    requires Terminated(contents, start) && i < j <= |TextAt(contents, start)|
    requires later == contents[start + i := NUL]
    ensures TextAt(later, start + j) == TextAt(contents, start)[j..] && Terminated(later, start + j)
  {
    hide TextAt;
    TextFrom(contents, start, j);
    TextKept(contents, later, start + j);
  }

  /** Texts that end before a position do not change when it is written to. */
  lemma HeldBefore(contents: seq<char>, later: seq<char>, b: array?<char>, ptrs: seq<Ptr>,
                   texts: seq<string>, limit: nat)
    requires Holds(contents, b, ptrs, texts) && Before(ptrs, texts, limit)
    requires |later| == |contents| && forall j :: 0 <= j < limit && j < |contents| ==> later[j] == contents[j]
    ensures Holds(later, b, ptrs, texts)
  {
    hide TextAt;
    forall k | 0 <= k < |ptrs|
      ensures Terminated(later, ptrs[k].offset) && TextAt(later, ptrs[k].offset) == texts[k]
    {
      TextKept(contents, later, ptrs[k].offset);
    }
  }

  lemma BeforeMore(ptrs: seq<Ptr>, texts: seq<string>, limit: nat, more: nat)
    requires Before(ptrs, texts, limit) && limit <= more
    ensures Before(ptrs, texts, more)
  {
  }

  lemma HoldsMore(contents: seq<char>, b: array?<char>, ptrs: seq<Ptr>, texts: seq<string>,
                  offset: nat, text: string, limit: nat)
    requires b != null && Holds(contents, b, ptrs, texts) && Before(ptrs, texts, offset)
    requires Terminated(contents, offset) && TextAt(contents, offset) == text && offset + |text| < limit
    ensures Holds(contents, b, ptrs + [At(b, offset)], texts + [text])
      && Before(ptrs + [At(b, offset)], texts + [text], limit)
  {
  }

  function TextsAt(contents: seq<char>, ptrs: seq<Ptr>): (texts: seq<Text>)
    ensures |texts| == |ptrs|
  {
    seq(|ptrs|, i requires 0 <= i < |ptrs| => if ptrs[i].At? then TextAt(contents, ptrs[i].offset) else "")
  }

  lemma HeldTexts(contents: seq<char>, b: array?<char>, ptrs: seq<Ptr>, texts: seq<string>)
    requires Holds(contents, b, ptrs, texts)
    ensures TextsAt(contents, ptrs) == texts
  {
  }

  lemma HeldAt(contents: seq<char>, b: array?<char>, ptrs: seq<Ptr>, texts: seq<string>, k: nat)
    requires Holds(contents, b, ptrs, texts) && k < |ptrs|
    ensures ptrs[k].At? && ptrs[k].buffer == b && TextAt(contents, ptrs[k].offset) == texts[k]
  {
  }

  /** Pointers to where packed fields start. */
  lemma HoldsPacked(fields: seq<Text>, contents: seq<char>, b: array<char>, ptrs: seq<Ptr>)
    requires Packed(fields, |fields|) <= contents && |ptrs| == |fields|
    requires forall k :: 0 <= k < |ptrs| ==> ptrs[k] == At(b, |Packed(fields, k)|)
    ensures Holds(contents, b, ptrs, fields)
  {
    hide TextAt, Packed;
    forall k | 0 <= k < |ptrs|
      ensures Terminated(contents, |Packed(fields, k)|) && TextAt(contents, |Packed(fields, k)|) == fields[k]
    {
      PackedText(fields, contents, k);
    }
  }

  lemma HoldsNone(contents: seq<char>, b: array?<char>)
    ensures Holds(contents, b, [], []) && Before([], [], 0)
  {
  }

  /** One more text cut off at `start`; what comes after the cut starts at `start + j`. */
  lemma CutAt(contents: seq<char>, later: seq<char>, b: array?<char>, ptrs: seq<Ptr>, texts: seq<string>,
              start: nat, i: nat, j: nat)
    requires b != null && Terminated(contents, start) && i < j <= |TextAt(contents, start)|
      && later == contents[start + i := NUL]
    requires Holds(contents, b, ptrs, texts) && Before(ptrs, texts, start)
    ensures
      var rest := TextAt(contents, start);
      var ptrs', texts' := ptrs + [At(b, start)], texts + [rest[..i]];
      && Holds(later, b, ptrs', texts') && Before(ptrs', texts', start + j)
      && Terminated(later, start + j) && TextAt(later, start + j) == rest[j..]
  {
    hide TextAt, Holds, Before;
    Cut(contents, later, start, i);
    AfterCut(contents, later, start, i, j);
    HeldBefore(contents, later, b, ptrs, texts, start);
    HoldsMore(later, b, ptrs, texts, start, TextAt(contents, start)[..i], start + j);
  }

  // ----- Words, one character at a time -----

  lemma BlanksSkipped(s: string)
    requires s != "" && IsSpace(s[0])
    ensures Blanks(s) == 1 + Blanks(s[1..])
  {
  }

  lemma BlankSkipped(s: string)
    requires s != "" && IsSpace(s[0])
    ensures Words(s) == Words(s[1..])
  {
    BlanksSkipped(s);
    var b := Blanks(s);
    if b == |s| {
      OnlyBlanks(s);
      OnlyBlanks(s[1..]);
    } else {
      SameWords(s, s[1..], b, Word(s[b..]));
    }
  }

  lemma SameWords(s: string, t: string, b: nat, w: nat)
    requires 0 < b == Blanks(s) < |s| && t == s[1..] && b - 1 == Blanks(t) && w == Word(s[b..])
    ensures Words(s) == Words(t)
  {
    hide *;
    SameSlices(s, t, b, w);
    WordsStart(s, b, w);
    WordsStart(t, b - 1, w);
  }

  lemma SameSlices(s: string, t: string, b: nat, w: nat)
    requires 0 < b && b + w <= |s| && t == s[1..]
    ensures s[b..] == t[b - 1..] && s[b..b + w] == t[b - 1..b - 1 + w] && s[b + w..] == t[b - 1 + w..]
  {
  }

  lemma {:induction false} WordIs(s: string, n: nat)
    requires n <= |s| && Solid(s[..n]) && (n < |s| ==> IsSpace(s[n]))
    ensures Word(s) == n
  {
    if n > 0 {
      assert s[..n][0] == s[0];
      assert s[..n] == [s[0]] + s[1..][..n - 1];
      WordIs(s[1..], n - 1);
    }
  }

  /** A word with a blank after it. */
  lemma FirstWord(s: string, n: nat)
    requires 0 < n < |s| && Solid(s[..n]) && IsSpace(s[n])
    ensures Words(s) == [s[..n]] + Words(s[n + 1..])
  {
    assert s[..n][0] == s[0];
    assert Blanks(s) == 0 && s[0..] == s;
    WordIs(s, n);
    WordsStart(s, 0, n);
    hide Words;
    BlankSkipped(s[n..]);
    assert s[n..][1..] == s[n + 1..];
  }

  /** A word that ends the text. */
  lemma LastWord(s: string)
    requires s != "" && Solid(s)
    ensures Words(s) == [s]
  {
    assert s[..|s|] == s && s[0] in s;
    assert Blanks(s) == 0 && s[0..] == s;
    WordIs(s, |s|);
    WordsStart(s, 0, |s|);
    OnlyBlanks("");
  }

  lemma WholeWord(s: string, n: nat)
    requires 0 < n == |s| && Solid(s[..n])
    ensures s[..n] == s && s[n..] == "" && Words(s) == [s] + Words(s[n..])
  {
    hide Words, Solid;
    assert s[..n] == s;
    LastWord(s);
    OnlyBlanks("");
  }

  /** The words found so far, and the next one before the rest. */
  lemma NextWord(done: seq<string>, s: string, n: nat)
    requires 0 < n <= |s| && Solid(s[..n]) && (n < |s| ==> IsSpace(s[n]))
    ensures n < |s| ==> done + Words(s) == done + [s[..n]] + Words(s[n + 1..])
    ensures n == |s| ==> s[..n] == s && s[n..] == "" && done + Words(s) == done + [s] + Words(s[n..])
  {
    hide Words, Solid, IsSpace;
    if n < |s| { FirstWord(s, n); } else { WholeWord(s, n); }
  }

  lemma SolidNone(s: string)
    ensures Solid(s[..0])
  {
  }

  lemma SolidMore(s: string, n: nat)
    requires n < |s| && Solid(s[..n]) && !IsSpace(s[n])
    ensures Solid(s[..n + 1])
  {
    assert s[..n + 1] == s[..n] + [s[n]];
  }
}

/** The current record and its fields as the runtime keeps them: a record buffer, a second buffer
    that splitting cuts up in place, and a growing table of pointers into it. Every operation is
    proved against the record that is only texts. */
module RecordEngine {
  import opened Options
  import opened CStrings
  import opened FieldText
  import opened RecordState

  class Runtime {
    var currentRecord: array?<char>
    var fieldBuffer: array?<char>
    var fields: array<Ptr>
    var fieldCount: nat
    var fieldSeparator: Text
    var outputSeparator: Text
    var nf: nat
    ghost var origin: Origin

    constructor (separator: Text)
      ensures Valid() && fresh(fields)
      ensures Current() == State(None, [], 0, SeparatorOf(separator), " ", Split(SeparatorOf(separator)))
    {
      currentRecord, fieldBuffer := null, null;
      fields := new Ptr[0];
      fieldCount, nf := 0, 0;
      fieldSeparator := SeparatorOf(separator);
      outputSeparator := " ";
      origin := Split(SeparatorOf(separator));
    }

    ghost predicate Valid()
      reads this, currentRecord, fieldBuffer, fields
    {
      && fieldCount <= fields.Length
      && nf == fieldCount
      && (currentRecord == null ==> fieldCount == 0)
      && (currentRecord != null ==> Terminated(currentRecord[..], 0))
      && (fieldCount > 0 ==> fieldBuffer != null)
      && (fieldBuffer != null ==>
          fieldBuffer != currentRecord && Holds(fieldBuffer[..], fieldBuffer, fields[..fieldCount], FieldTexts()))
    }

    ghost function FieldTexts(): seq<Text>
      requires fieldCount <= fields.Length
      reads this, fieldBuffer, fields
    {
      if fieldBuffer == null then [] else TextsAt(fieldBuffer[..], fields[..fieldCount])
    }

    /** The texts the buffers hold. */
    ghost function Current(): State
      requires fieldCount <= fields.Length
      reads this, currentRecord, fieldBuffer, fields
    {
      State(if currentRecord == null then None else Some(TextAt(currentRecord[..], 0)), FieldTexts(), nf,
            fieldSeparator, outputSeparator, origin)
    }

    lemma HasFields()
      requires Valid()
      ensures fieldCount <= fields.Length && Current().fields == FieldTexts()
    {
    }

    // ----- Reading -----

    method GetField(index: int) returns (text: Text)
      requires Valid()
      ensures text == Current().Get(index)
    {
      text := "";
      if currentRecord == null {
        return;
      }
      if index == 0 {
        text := TextAt(currentRecord[..], 0);
      } else if index > 0 && index - 1 < fieldCount {
        var p := fields[index - 1];
        text := TextAt(p.buffer[..], p.offset);
      }
    }

    // ----- Splitting -----

    method PushField(p: Ptr)
      requires fieldCount <= fields.Length
      modifies this`fields, this`fieldCount, fields
      ensures fieldCount == old(fieldCount) + 1 <= fields.Length
      ensures fields[..fieldCount] == old(fields[..fieldCount]) + [p]
      ensures fields == old(fields) || fresh(fields)
    {
      if fieldCount == fields.Length {
        var grown := new Ptr[if fields.Length == 0 then 8 else 2 * fields.Length];
        for i := 0 to fieldCount
          invariant fieldCount == old(fieldCount) && fields == old(fields) && fields[..] == old(fields[..])
          invariant grown[..i] == fields[..i]
        {
          grown[i] := fields[i];
        }
        fields := grown;
      }
      fields[fieldCount] := p;
      fieldCount := fieldCount + 1;
    }

    /** Cut the field buffer at every separator. */
    method SplitLiteral()
      requires fieldBuffer != null && fieldBuffer != currentRecord && fieldCount == 0 && fieldSeparator != ""
        && Terminated(fieldBuffer[..], 0)
      modifies this`fields, this`fieldCount, fieldBuffer, fields
      ensures fieldCount <= fields.Length && (fields == old(fields) || fresh(fields))
      ensures Holds(fieldBuffer[..], fieldBuffer, fields[..fieldCount],
                    SplitOn(old(TextAt(fieldBuffer[..], 0)), fieldSeparator))
    {
      hide TextAt, SplitOn, Holds, Before, FindSub, HasAt, Terminated;
      ghost var all := SplitOn(TextAt(fieldBuffer[..], 0), fieldSeparator);
      HoldsNone(fieldBuffer[..], fieldBuffer);
      ghost var done: seq<string> := [];
      var start := 0;
      while true
        invariant fieldBuffer == old(fieldBuffer) && fieldCount <= fields.Length
          && (fields == old(fields) || fresh(fields))
        invariant Terminated(fieldBuffer[..], start) && start <= fieldBuffer.Length
        invariant Holds(fieldBuffer[..], fieldBuffer, fields[..fieldCount], done)
          && Before(fields[..fieldCount], done, start)
        invariant all == done + SplitOn(TextAt(fieldBuffer[..], start), fieldSeparator)
        decreases fieldBuffer.Length - start
      {
        ghost var piece;
        var next;
        next, piece := TakePiece(start, done);
        done := done + [piece];
        if next.None? {
          return;
        }
        start := next.value;
      }
    }

    /** The piece that starts at `start`, cut off and noted, and where the next one starts. */
    method TakePiece(start: nat, ghost done: seq<string>) returns (next: Option<nat>, ghost piece: string)
      requires fieldBuffer != null && fieldSeparator != "" && Terminated(fieldBuffer[..], start)
        && fieldCount <= fields.Length
      requires Holds(fieldBuffer[..], fieldBuffer, fields[..fieldCount], done)
        && Before(fields[..fieldCount], done, start)
      modifies this`fields, this`fieldCount, fieldBuffer, fields
      ensures fieldCount <= fields.Length && (fields == old(fields) || fresh(fields))
      ensures Holds(fieldBuffer[..], fieldBuffer, fields[..fieldCount], done + [piece])
      ensures
        var pieces := old(SplitOn(TextAt(fieldBuffer[..], start), fieldSeparator));
        if next.None? then done + pieces == done + [piece]
        else
          && start < next.value < fieldBuffer.Length && Terminated(fieldBuffer[..], next.value)
          && Before(fields[..fieldCount], done + [piece], next.value)
          && done + pieces == done + [piece] + SplitOn(TextAt(fieldBuffer[..], next.value), fieldSeparator)
    {
      hide TextAt, SplitOn, Holds, Before, FindSub, HasAt, Terminated;
      var rest := TextAt(fieldBuffer[..], start);
      var found := Search(rest, fieldSeparator);
      NextPiece(done, rest, fieldSeparator);
      if found.None? {
        piece := rest;
        NoteRest(start, done);
        next := None;
      } else {
        piece := rest[..found.value];
        CutOff(start, found.value, |fieldSeparator|, done);
        next := Some(start + found.value + |fieldSeparator|);
      }
    }

    /** The text that starts at `start`, cut off after `i` characters and noted as a field; the
        rest goes on `skipped` characters later. */
    method CutOff(start: nat, i: nat, skipped: nat, ghost done: seq<string>)
      requires fieldBuffer != null && fieldCount <= fields.Length && skipped > 0
      requires Terminated(fieldBuffer[..], start) && i + skipped <= |TextAt(fieldBuffer[..], start)|
      requires Holds(fieldBuffer[..], fieldBuffer, fields[..fieldCount], done)
        && Before(fields[..fieldCount], done, start)
      modifies this`fields, this`fieldCount, fieldBuffer, fields
      ensures fieldCount <= fields.Length && (fields == old(fields) || fresh(fields))
      ensures
        var rest, next := old(TextAt(fieldBuffer[..], start)), start + i + skipped;
        && Holds(fieldBuffer[..], fieldBuffer, fields[..fieldCount], done + [rest[..i]])
        && Before(fields[..fieldCount], done + [rest[..i]], next)
        && next < fieldBuffer.Length && Terminated(fieldBuffer[..], next)
          && TextAt(fieldBuffer[..], next) == rest[i + skipped..]
    {
      hide TextAt, Holds, Before;
      ghost var contents := fieldBuffer[..];
      fieldBuffer[start + i] := NUL;
      CutAt(contents, fieldBuffer[..], fieldBuffer, fields[..fieldCount], done, start, i, i + skipped);
      PushField(At(fieldBuffer, start));
    }

    /** Cut the field buffer into words. */
    method SplitWhitespace()
      requires fieldBuffer != null && fieldBuffer != currentRecord && fieldCount == 0 && Terminated(fieldBuffer[..], 0)
      modifies this`fields, this`fieldCount, fieldBuffer, fields
      ensures fieldCount <= fields.Length && (fields == old(fields) || fresh(fields))
      ensures Holds(fieldBuffer[..], fieldBuffer, fields[..fieldCount], Words(old(TextAt(fieldBuffer[..], 0))))
    {
      hide Words, Word, Blanks, TextAt, Holds, Before, Solid, IsSpace;
      HoldsNone(fieldBuffer[..], fieldBuffer);
      ghost var all := Words(TextAt(fieldBuffer[..], 0));
      ghost var done: seq<string> := [];
      var cursor := 0;
      while fieldBuffer[cursor] != NUL
        invariant fieldBuffer == old(fieldBuffer) && fieldCount <= fields.Length
          && (fields == old(fields) || fresh(fields))
        invariant Terminated(fieldBuffer[..], cursor)
        invariant Holds(fieldBuffer[..], fieldBuffer, fields[..fieldCount], done)
        invariant fieldBuffer[cursor] != NUL ==> Before(fields[..fieldCount], done, cursor)
        invariant all == done + Words(TextAt(fieldBuffer[..], cursor))
        decreases fieldBuffer.Length - cursor
      {
        var from := cursor;
        cursor := SkipBlanks(cursor);
        BeforeMore(fields[..fieldCount], done, from, cursor);
        CharacterOf(fieldBuffer[..], cursor, 0);
        if fieldBuffer[cursor] == NUL {
          break;
        }
        ghost var word;
        cursor, word := TakeWord(cursor, done);
        done := done + [word];
      }
      CharacterOf(fieldBuffer[..], cursor, 0);
      OnlyBlanks("");
      assert TextAt(fieldBuffer[..], cursor) == "" && all == done + [] == done;
    }

    /** The word that starts at `start`, cut off and noted; the cursor stands behind it. */
    method TakeWord(start: nat, ghost done: seq<string>) returns (cursor: nat, ghost word: string)
      requires fieldBuffer != null && Terminated(fieldBuffer[..], start) && fieldBuffer[start] != NUL
        && !IsSpace(fieldBuffer[start])
      requires fieldCount <= fields.Length
      requires Holds(fieldBuffer[..], fieldBuffer, fields[..fieldCount], done)
        && Before(fields[..fieldCount], done, start)
      modifies this`fields, this`fieldCount, fieldBuffer, fields
      ensures fieldCount <= fields.Length && (fields == old(fields) || fresh(fields))
      ensures start < cursor < fieldBuffer.Length && Terminated(fieldBuffer[..], cursor)
      ensures Holds(fieldBuffer[..], fieldBuffer, fields[..fieldCount], done + [word])
      ensures fieldBuffer[cursor] != NUL ==> Before(fields[..fieldCount], done + [word], cursor)
      ensures done + Words(old(TextAt(fieldBuffer[..], start)))
        == done + [word] + Words(TextAt(fieldBuffer[..], cursor))
    {
      hide Words, TextAt, Holds, Before, Solid, IsSpace, Terminated;
      cursor := SkipWord(start);
      ghost var t, n := TextAt(fieldBuffer[..], start), cursor - start;
      word := t[..n];
      NextWord(done, t, n);
      if fieldBuffer[cursor] != NUL {
        CutOff(start, cursor - start, 1, done);
        cursor := cursor + 1;
      } else {
        NoteRest(start, done);
      }
    }

    /** The text that starts at `start`, noted whole as the last field. */
    method NoteRest(start: nat, ghost done: seq<string>)
      requires fieldBuffer != null && fieldCount <= fields.Length && Terminated(fieldBuffer[..], start)
      requires Holds(fieldBuffer[..], fieldBuffer, fields[..fieldCount], done)
        && Before(fields[..fieldCount], done, start)
      modifies this`fields, this`fieldCount, fields
      ensures fieldCount <= fields.Length && (fields == old(fields) || fresh(fields))
      ensures Holds(fieldBuffer[..], fieldBuffer, fields[..fieldCount], done + [TextAt(fieldBuffer[..], start)])
    {
      hide TextAt, Holds, Before;
      HoldsMore(fieldBuffer[..], fieldBuffer, fields[..fieldCount], done, start, TextAt(fieldBuffer[..], start),
                fieldBuffer.Length + 1);
      PushField(At(fieldBuffer, start));
    }

    /** The first position from `from` on that is not a blank. */
    method SkipBlanks(from: nat) returns (cursor: nat)
      requires fieldBuffer != null && Terminated(fieldBuffer[..], from)
      ensures from <= cursor && Terminated(fieldBuffer[..], cursor)
      ensures fieldBuffer[cursor] == NUL || !IsSpace(fieldBuffer[cursor])
      ensures Words(TextAt(fieldBuffer[..], cursor)) == Words(TextAt(fieldBuffer[..], from))
    {
      hide Words, TextAt, IsSpace;
      ghost var b := fieldBuffer[..];
      cursor := from;
      while fieldBuffer[cursor] != NUL && IsSpace(fieldBuffer[cursor])
        invariant from <= cursor && Terminated(b, cursor) && Words(TextAt(b, cursor)) == Words(TextAt(b, from))
        decreases |b| - cursor
      {
        CharacterOf(b, cursor, 0);
        BlankSkipped(TextAt(b, cursor));
        TextFrom(b, cursor, 1);
        cursor := cursor + 1;
      }
    }

    /** The end of the word that starts at `start`. */
    method SkipWord(start: nat) returns (cursor: nat)
      requires fieldBuffer != null && Terminated(fieldBuffer[..], start) && fieldBuffer[start] != NUL
        && !IsSpace(fieldBuffer[start])
      ensures cursor < fieldBuffer.Length && Terminated(fieldBuffer[..], cursor)
      ensures
        var t, n := TextAt(fieldBuffer[..], start), cursor - start;
        && 0 < n <= |t| && Solid(t[..n]) && (n < |t| ==> IsSpace(t[n])) && (n < |t| <==> fieldBuffer[cursor] != NUL)
        && TextAt(fieldBuffer[..], cursor) == t[n..]
    {
      hide TextAt, IsSpace, Solid, Terminated, NoNul;
      ghost var b := fieldBuffer[..];
      ghost var t := TextAt(b, start);
      EndsInside(b, start);
      cursor := start;
      CharacterOf(b, start, 0);
      SolidNone(t);
      while fieldBuffer[cursor] != NUL && !IsSpace(fieldBuffer[cursor])
        invariant start <= cursor <= start + |t| && Solid(t[..cursor - start])
        invariant cursor == start ==> fieldBuffer[cursor] != NUL && !IsSpace(fieldBuffer[cursor])
        decreases fieldBuffer.Length - cursor
      {
        CharacterOf(b, start, cursor - start);
        SolidMore(t, cursor - start);
        cursor := cursor + 1;
      }
      CharacterOf(b, start, cursor - start);
      TextFrom(b, start, cursor - start);
    }

    /** Copy the record into a buffer of its own and split it there. */
    method RebuildFields()
      requires fieldCount <= fields.Length && currentRecord != null && Terminated(currentRecord[..], 0)
      modifies this, fields
      ensures Valid() && (fields == old(fields) || fresh(fields))
      ensures Current() == WithRecord(old(Current()), old(TextAt(currentRecord[..], 0)))
      ensures currentRecord == old(currentRecord)
    {
      hide Words, SplitOn, TextAt, Holds, Terminated, TextsAt;
      ghost var s := Current();
      var record := TextAt(currentRecord[..], 0);
      fieldCount := 0;
      fieldBuffer := Duplicate(record);
      if fieldSeparator == "" {
        SplitWhitespace();
      } else {
        SplitLiteral();
      }
      nf := fieldCount;
      origin := Split(fieldSeparator);
      FieldsHaveNoNul(record, fieldSeparator);
      HeldTexts(fieldBuffer[..], fieldBuffer, fields[..fieldCount], Fields(record, fieldSeparator));
    }

    // ----- Assignments -----

    method ReplaceCurrentRecord(text: Text)
      requires fieldCount <= fields.Length
      modifies this`currentRecord
      ensures currentRecord != null && fresh(currentRecord) && Terminated(currentRecord[..], 0)
        && TextAt(currentRecord[..], 0) == text
    {
      currentRecord := Duplicate(text);
    }

    /** A record read from the input, or assigned to `$0`. */
    method NewRecord(text: Text)
      requires Valid()
      modifies this, fields
      ensures Valid() && (fields == old(fields) || fresh(fields))
        && Current() == Apply(old(Current()), RecordState.NewRecord(text))
    {
      ghost var s := Current();
      ReplaceCurrentRecord(text);
      RebuildFields();
    }

    method FieldAt(k: nat, index: int, value: Text) returns (text: Text)
      requires fieldCount <= fields.Length && ((index > 0 && k + 1 == index) || k >= fieldCount || fields[k].At?)
      ensures text == if index > 0 && k + 1 == index then value
                      else if k < fieldCount then TextAt(fields[k].buffer[..], fields[k].offset) else ""
    {
      text := "";
      if index > 0 && k + 1 == index {
        text := value;
      } else if k < fieldCount {
        text := TextAt(fields[k].buffer[..], fields[k].offset);
      }
    }

    /** The first pass: how long the new record is, and the new field buffer. */
    method Lengths(n: nat, index: int, value: Text) returns (total: nat, packed: nat)
      requires Valid() && currentRecord != null
      ensures
        var after := Respread(Current().fields, n, index, value);
        total == |Laid(after, n, outputSeparator)| && packed == (if n == 0 then 1 else 0) + |Packed(after, n)|
    {
      hide TextAt, Laid, Packed;
      ghost var before := Current().fields;
      ghost var after := Respread(before, n, index, value);
      LaidStart(after, outputSeparator);
      total, packed := 0, if n == 0 then 1 else 0;
      for k := 0 to n
        invariant total == |Laid(after, k, outputSeparator)| && packed == (if n == 0 then 1 else 0) + |Packed(after, k)|
      {
        var text := FieldAt(k, index, value);
        assert text == after[k];
        LaidNext(after, k, outputSeparator);
        total := total + |text|;
        packed := packed + |text| + 1;
        if k + 1 < n {
          total := total + |outputSeparator|;
        }
      }
    }

    /** Room for `n` pointers; the ones there stay. */
    method Reserve(n: nat)
      requires fieldCount <= fields.Length < n
      modifies this`fields
      ensures fresh(fields) && fields.Length == n && fields[..fieldCount] == old(fields[..fieldCount])
    {
      var grown := new Ptr[n];
      for i := 0 to fieldCount
        invariant fields == old(fields) && grown[..i] == fields[..i]
      {
        grown[i] := fields[i];
      }
      fields := grown;
    }

    /** The second pass. The table is overwritten while the old fields are still being read, each
        entry only after its text has been used. Every write is inside the two buffers, and fills
        them exactly. */
    method CopyFields(n: nat, index: int, value: Text, nextRecord: array<char>, nextBuffer: array<char>,
                      ghost before: seq<Text>)
      requires n <= fields.Length && fieldCount <= fields.Length && |before| == fieldCount
      requires fieldCount > 0 ==> fieldBuffer != null
      requires fieldBuffer != null ==> Holds(fieldBuffer[..], fieldBuffer, fields[..fieldCount], before)
      requires fieldBuffer != nextRecord && fieldBuffer != nextBuffer && nextRecord != nextBuffer
      requires
        var after := Respread(before, n, index, value);
        nextRecord.Length == |Laid(after, n, outputSeparator)| + 1
          && nextBuffer.Length == (if n == 0 then 1 else 0) + |Packed(after, n)|
      modifies fields, nextRecord, nextBuffer
      ensures
        var after := Respread(before, n, index, value);
        && nextRecord[..] == Laid(after, n, outputSeparator) + [NUL]
        && Packed(after, n) <= nextBuffer[..] && Holds(nextBuffer[..], nextBuffer, fields[..n], after)
    {
      hide TextAt, Laid, Packed, Holds, Respread;
      ghost var after, sep := Respread(before, n, index, value), outputSeparator;
      LaidStart(after, sep);
      var cursor, fieldCursor := 0, 0;
      for k := 0 to n
        invariant cursor == |Laid(after, k, sep)| && cursor < nextRecord.Length
          && nextRecord[..cursor] == Laid(after, k, sep)
        invariant fieldCursor == |Packed(after, k)| && fieldCursor <= nextBuffer.Length
          && nextBuffer[..fieldCursor] == Packed(after, k)
        invariant forall j :: 0 <= j < k ==> fields[j] == At(nextBuffer, |Packed(after, j)|)
        invariant forall j :: k <= j < fieldCount ==> fields[j] == old(fields[j])
        invariant fieldBuffer != null ==> fieldBuffer[..] == old(fieldBuffer[..])
      {
        RespreadAt(before, n, index, value, k);
        if k < fieldCount { HeldAt(old(fieldBuffer[..]), fieldBuffer, old(fields[..fieldCount]), before, k); }
        var text := FieldAt(k, index, value);
        assert text == after[k];
        LaidNext(after, k, sep);
        LaidGrows(after, k + 1, n, sep);
        var start := fieldCursor;
        cursor, fieldCursor := CopyField(text, if k + 1 < n then outputSeparator
                                         else "", nextRecord, cursor, nextBuffer, fieldCursor);
        fields[k] := At(nextBuffer, start);
      }
      nextRecord[cursor] := NUL;
      HoldsPacked(after, nextBuffer[..], nextBuffer, fields[..n]);
    }

    /** Fields and record rebuilt with `count` fields, or as many as `index` needs, in two passes
        over them: the first adds up lengths, the second copies into buffers of just that size. */
    method RebuildCurrentRecord(count: nat, index: int, value: Text)
      requires Valid() && index != 0
      modifies this, fields
      ensures Valid() && (fields == old(fields) || fresh(fields))
      ensures
        var s := old(Current());
        Current() == if s.record.None? then s
                     else WithFields(s, Respread(s.fields, if count < index then index else count, index, value))
    {
      hide Valid, FieldTexts, TextAt, Laid, Packed, Join, Holds, Respread, WithFields, Terminated;
      HasFields();
      if currentRecord == null {
        return;
      }
      var n := if count < index then index else count;
      ghost var s := Current();
      ghost var after := Respread(s.fields, n, index, value);
      var total, packed := Lengths(n, index, value);
      var nextRecord, nextBuffer := TwoPasses(n, index, value, total, packed);
      Install(nextRecord, nextBuffer, n, after, s);
    }

    /** New buffers of the lengths the first pass found, filled by the second. */
    method TwoPasses(n: nat, index: int, value: Text, total: nat, packed: nat)
      returns (nextRecord: array<char>, nextBuffer: array<char>)
      requires Valid() && currentRecord != null
      requires
        var after := Respread(FieldTexts(), n, index, value);
        total == |Laid(after, n, outputSeparator)| && packed == (if n == 0 then 1 else 0) + |Packed(after, n)|
      modifies this`fields, fields
      ensures fresh(nextRecord) && fresh(nextBuffer) && nextRecord != nextBuffer
      ensures n <= fields.Length && (fields == old(fields) || fresh(fields))
      ensures
        var after := Respread(old(FieldTexts()), n, index, value);
        nextRecord[..] == Join(after, outputSeparator) + [NUL] && Holds(nextBuffer[..], nextBuffer, fields[..n], after)
    {
      hide TextAt, Laid, Packed, Join, Holds, Respread;
      ghost var before := FieldTexts();
      ghost var after := Respread(before, n, index, value);
      nextRecord := new char[total + 1];
      nextBuffer := new char[packed];
      if n > fields.Length {
        Reserve(n);
      }
      CopyFields(n, index, value, nextRecord, nextBuffer, before);
      if n == 0 {
        nextBuffer[0] := NUL;
        HoldsEmpty(nextBuffer[..], nextBuffer, fields[..n], after);
      }
      LaidOut(after, outputSeparator);
    }

    /** The new buffers in place of the old. */
    method Install(nextRecord: array<char>, nextBuffer: array<char>, n: nat, ghost after: seq<Text>, ghost s: State)
      requires s.fieldSeparator == fieldSeparator && s.outputSeparator == outputSeparator
      requires n <= fields.Length && |after| == n && nextRecord != nextBuffer
      requires nextRecord[..] == Join(after, outputSeparator) + [NUL]
        && Holds(nextBuffer[..], nextBuffer, fields[..n], after)
      modifies this`currentRecord, this`fieldBuffer, this`fieldCount, this`nf, this`origin
      ensures Valid() && Current() == WithFields(s, after)
    {
      hide TextAt, Join;
      JoinHasNoNul(after, outputSeparator);
      ghost var record := Join(after, outputSeparator);
      assert nextRecord[..][0..|record|] == record;
      TextIs(nextRecord[..], 0, record);
      currentRecord := nextRecord;
      fieldBuffer := nextBuffer;
      fieldCount := n;
      nf := n;
      origin := Joined(outputSeparator);
      HeldTexts(fieldBuffer[..], fieldBuffer, fields[..n], after);
    }

    method SetField(index: int, value: Text)
      requires Valid()
      modifies this, fields
      ensures Valid() && (fields == old(fields) || fresh(fields))
        && Current() == Apply(old(Current()), RecordState.SetField(index, value))
    {
      hide Respread, WithFields;
      if index == 0 {
        ReplaceCurrentRecord(value);
        RebuildFields();
      } else if index > 0 {
        assert |Current().fields| == fieldCount;
        RebuildCurrentRecord(fieldCount, index, value);
      }
    }

    method SetFieldCount(count: nat)
      requires Valid()
      modifies this, fields
      ensures Valid() && (fields == old(fields) || fresh(fields)) && Current() == Apply(old(Current()), SetNF(count))
    {
      hide Respread, WithFields;
      RebuildCurrentRecord(count, -1, "");
      nf := fieldCount;
    }

    method SetFieldSeparator(text: Text)
      requires Valid()
      modifies this`fieldSeparator
      ensures Valid() && Current() == Apply(old(Current()), SetFS(text))
    {
      fieldSeparator := SeparatorOf(text);
    }

    method SetOutputSeparator(text: Text)
      requires Valid()
      modifies this`outputSeparator
      ensures Valid() && Current() == Apply(old(Current()), SetOFS(text))
    {
      outputSeparator := text;
    }

    // ----- Whole runs -----

    /** Any operations in any order: the buffers follow the texts. */
    method Perform(ops: seq<Op>)
      requires Valid()
      modifies this, fields
      ensures Valid() && Current() == Run(old(Current()), ops)
    {
      hide Apply;
      ghost var s := Current();
      for i := 0 to |ops|
        invariant Valid() && (fields == old(fields) || fresh(fields)) && Current() == Run(s, ops[..i])
      {
        assert ops[..i + 1][..i] == ops[..i];
        match ops[i] {
          case NewRecord(text) => NewRecord(text);
          case SetField(index, value) => SetField(index, value);
          case SetNF(count) => SetFieldCount(count);
          case SetFS(text) => SetFieldSeparator(text);
          case SetOFS(text) => SetOutputSeparator(text);
        }
      }
      assert ops[..|ops|] == ops;
    }
  }

  lemma HoldsEmpty(contents: seq<char>, b: array?<char>, ptrs: seq<Ptr>, texts: seq<string>)
    requires ptrs == [] && texts == []
    ensures Holds(contents, b, ptrs, texts)
  {
  }

  /** `strstr`, by its position. */
  function Search(text: string, separator: string): (r: Option<nat>)
    ensures r == FindSub(text, separator) && (r.Some? ==> r.value + |separator| <= |text|)
  {
    FindSub(text, separator)
  }

  /** One field into both buffers: with the separator after it into the record, with a NUL into
      the field buffer. */
  method CopyField(text: Text, separator: Text, nextRecord: array<char>, cursor: nat,
                   nextBuffer: array<char>, fieldCursor: nat)
    returns (cursor': nat, fieldCursor': nat)
    requires nextRecord != nextBuffer
    requires cursor + |text| + |separator| <= nextRecord.Length && fieldCursor + |text| + 1 <= nextBuffer.Length
    modifies nextRecord, nextBuffer
    ensures cursor' == cursor + |text| + |separator| && fieldCursor' == fieldCursor + |text| + 1
    ensures nextRecord[..cursor'] == old(nextRecord[..cursor]) + text + separator
    ensures nextBuffer[..fieldCursor'] == old(nextBuffer[..fieldCursor]) + text + [NUL]
  {
    CopyText(nextRecord, cursor, text);
    CopyText(nextBuffer, fieldCursor, text + [NUL]);
    CopyText(nextRecord, cursor + |text|, separator);
    cursor', fieldCursor' := cursor + |text| + |separator|, fieldCursor + |text| + 1;
  }

  /** `memcpy` of a text. */
  method CopyText(target: array<char>, at: nat, text: string)
    requires at + |text| <= target.Length
    modifies target
    ensures target[..] == old(target[..at]) + text + old(target[at + |text|..])
  {
    for i := 0 to |text|
      invariant forall j :: 0 <= j < i ==> target[at + j] == text[j]
      invariant forall j :: 0 <= j < target.Length && !(at <= j < at + i) ==> target[j] == old(target[j])
    {
      target[at + i] := text[i];
    }
    assert target[..at] == old(target[..at]) && target[at..at + |text|] == text;
    assert target[at + |text|..] == old(target[at + |text|..]);
    assert target[..] == target[..at] + target[at..at + |text|] + target[at + |text|..];
  }

  method Duplicate(text: Text) returns (copy: array<char>)
    ensures fresh(copy) && Terminated(copy[..], 0) && TextAt(copy[..], 0) == text
  {
    copy := new char[|text| + 1];
    for i := 0 to |text|
      invariant copy[..i] == text[..i]
    {
      copy[i] := text[i];
    }
    copy[|text|] := NUL;
    assert copy[..][0..|text|] == text;
    TextIs(copy[..], 0, text);
  }

  lemma LaidStart(fields: seq<Text>, separator: Text)
    ensures Laid(fields, 0, separator) == "" && Packed(fields, 0) == ""
  {
  }

  lemma LaidNext(fields: seq<Text>, k: nat, separator: Text)
    requires k < |fields|
    ensures Laid(fields, k + 1, separator) == Laid(fields, k, separator) + fields[k]
      + (if k + 1 < |fields| then separator else "")
    ensures Packed(fields, k + 1) == Packed(fields, k) + fields[k] + [NUL]
  {
  }
}

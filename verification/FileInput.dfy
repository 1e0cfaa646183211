/** The compiled program reading files: the records are those of the reader, the numbers the runtime
    keeps are those of the record handed out, and a program that prints them lists the files. */
module FileInput {
  import opened Options
  import opened Syntax
  import opened Meaning
  import opened WellFormedStmt
  import opened StmtSimulation
  import opened PhaseSimulation
  import opened Readings
  import opened Effects
  import opened ResidencySound
  import opened Storage
  import opened CompiledProgram
  import opened CompiledOutput
  import LS = LoweringSpec
  import IR = InputReader
  import CS = CStrings
  import FT = FieldText

  /** The files, what ends a record and a field in them, and the double that stands for a count. */
  datatype Files = Files(texts: seq<string>, separator: char, fieldSeparator: string, number: nat -> Double) {
    function Records(): seq<seq<string>> {
      IR.AllRecords(texts, separator)
    }

    /** The number of fields of a record, which ends at a NUL. */
    function FieldCount(record: string): nat {
      |FT.Fields(CS.TextAt(record + [CS.NUL], 0), fieldSeparator)|
    }
  }

  // ----- What has been asked of the input -----

  /** A `nextfile` for each of its events. */
  function Skips(events: seq<Event>): seq<IR.Request> {
    if events == [] then [] else
    Skips(events[..|events| - 1]) + (if events[|events| - 1].SkippedFile? then [IR.Skip] else [])
  }

  /** A read for each record handed out, and after it the skips until the next. */
  function Requests(taken: seq<nat>, output: seq<Event>): seq<IR.Request>
    decreases taken
  {
    if taken == [] then [] else
    var last := taken[|taken| - 1];
    var from := if last <= |output| then last else |output|;
    Requests(taken[..|taken| - 1], output[..from]) + ([IR.Read] + Skips(output[from..]))
  }

  /** Where the reader stands. */
  function Position(f: Files, taken: seq<nat>, output: seq<Event>): (i: IR.Input)
    ensures IR.Placed(f.Records(), i)
  {
    IR.After(f.Records(), IR.BEGIN, Requests(taken, output))
  }

  /** NR, FNR and NF once the records in `i.taken` have been read. */
  function NumbersAt(f: Files, i: IR.Input): BuiltinValues {
    var records := IR.Flat(i.taken);
    BuiltinValues(f.number(|records|), f.number(IR.LastCount(i.taken)),
                  f.number(if records == [] then 0 else f.FieldCount(records[|records| - 1])))
  }

  function NextNumbers(f: Files, i: IR.Input): Option<BuiltinValues>
    requires IR.Placed(f.Records(), i)
  {
    var (record, later) := IR.NextRecord(f.Records(), i);
    if record.None? then None else Some(NumbersAt(f, later))
  }

  /** The world outside, where the input is these files. */
  function Reading(ops: FloatOps, f: Files): Outside {
    Outside(
      ops,
      BuiltinValues(f.number(0), f.number(0), f.number(0)),
      (taken, output) => NextNumbers(f, Position(f, taken, output)),
      (taken, output, exits) => NumbersAtEnd(f, Position(f, taken, output), exits))
  }

  /** A program that does not exit has looked for one more record, perhaps in files without any. */
  function NumbersAtEnd(f: Files, i: IR.Input, exits: bool): BuiltinValues
    requires IR.Placed(f.Records(), i)
  {
    NumbersAt(f, if exits then i else IR.NextRecord(f.Records(), i).1)
  }

  // ----- The reader keeps step with the calls -----

  lemma {:induction false} AfterThen(all: seq<seq<string>>, i: IR.Input, a: seq<IR.Request>, b: seq<IR.Request>)
    requires IR.Placed(all, i)
    ensures IR.After(all, i, a + b) == IR.After(all, IR.After(all, i, a), b)
    decreases a
  {
    hide IR.NextRecord;
    if a == [] {
      assert a + b == b;
    } else {
      assert (a + b)[0] == a[0] && (a + b)[1..] == a[1..] + b;
      AfterThen(all, if a[0].Skip? then IR.Skipped(i) else IR.NextRecord(all, i).1, a[1..], b);
    }
  }

  lemma {:induction false} SkipsKeep(all: seq<seq<string>>, i: IR.Input, events: seq<Event>)
    requires IR.Placed(all, i)
    ensures IR.After(all, i, Skips(events)).taken == i.taken
    ensures (forall e :: e in events ==> !e.SkippedFile?) ==> Skips(events) == []
    decreases events
  {
    if events != [] {
      var front := events[..|events| - 1];
      SkipsKeep(all, i, front);
      AfterThen(all, i, Skips(front), if events[|events| - 1].SkippedFile? then [IR.Skip] else []);
      assert forall e :: e in front ==> e in events;
    }
  }

  /** One more record handed out, and what has been printed since. */
  lemma RequestsNext(s: Kept, t: Kept)
    requires t.taken == Taking(s).taken && s.output <= t.output
    ensures Requests(t.taken, t.output) == Requests(s.taken, s.output) + ([IR.Read] + Skips(t.output[|s.output|..]))
  {
    assert t.taken[..|t.taken| - 1] == s.taken && t.taken[|t.taken| - 1] == |s.output|;
    assert t.output[..|s.output|] == s.output;
  }

  lemma PositionNext(f: Files, s: Kept, t: Kept)
    requires t.taken == Taking(s).taken && s.output <= t.output
    ensures
      var i, skips := Position(f, s.taken, s.output), Skips(t.output[|s.output|..]);
      Position(f, t.taken, t.output) == IR.After(f.Records(), IR.NextRecord(f.Records(), i).1, skips)
  {
    hide IR.NextRecord, Requests, Skips;
    var i, skips := Position(f, s.taken, s.output), Skips(t.output[|s.output|..]);
    RequestsNext(s, t);
    AfterThen(f.Records(), IR.BEGIN, Requests(s.taken, s.output), [IR.Read] + skips);
    AfterThen(f.Records(), i, [IR.Read], skips);
    assert IR.After(f.Records(), i, [IR.Read]) == IR.NextRecord(f.Records(), i).1;
  }

  /** As many records have been delivered as record calls made. */
  ghost predicate Counts(f: Files, s: Kept) {
    |IR.Flat(Position(f, s.taken, s.output).taken)| == |s.taken|
  }

  /** The next call sees the numbers of its record: NR is one more than the calls so far. */
  lemma NextIsNumbered(ops: FloatOps, f: Files, s: Kept)
    requires Counts(f, s) && Next(Reading(ops, f), s).Some?
    ensures
      var (record, later) := IR.NextRecord(f.Records(), Position(f, s.taken, s.output));
      var numbers := Next(Reading(ops, f), s).value;
      && record.Some? && IR.Flat(later.taken) == IR.Flat(Position(f, s.taken, s.output).taken) + [record.value]
      && numbers.nr == f.number(|s.taken| + 1) && numbers.fnr == f.number(IR.LastCount(later.taken))
      && numbers.nf == f.number(f.FieldCount(record.value))
  {
    hide IR.NextRecord, IR.Flat, IR.LastCount;
    var i := Position(f, s.taken, s.output);
    PositionInOrder(f, s.taken, s.output);
    IR.NextInOrder(f.Records(), i);
    var (record, later) := IR.NextRecord(f.Records(), i);
    assert IR.Delivered([record]) == [record.value];
  }

  lemma PositionInOrder(f: Files, taken: seq<nat>, output: seq<Event>)
    ensures IR.InOrder(f.Records(), Position(f, taken, output))
  {
    IR.InOrderAtFirst(f.Records());
    IR.DeliveredInOrder(f.Records(), IR.BEGIN, Requests(taken, output));
  }

  lemma StillCounts(ops: FloatOps, f: Files, s: Kept, t: Kept)
    requires Counts(f, s) && Next(Reading(ops, f), s).Some? && t.taken == Taking(s).taken && s.output <= t.output
    ensures Counts(f, t)
  {
    hide IR.NextRecord, IR.Flat;
    var i := Position(f, s.taken, s.output);
    NextIsNumbered(ops, f, s);
    PositionNext(f, s, t);
    SkipsKeep(f.Records(), IR.NextRecord(f.Records(), i).1, t.output[|s.output|..]);
  }

  /** The driver's record loop stands at `t` after `n` calls. */
  ghost predicate LoopReaches(out: Outside, locals: set<string>, items: seq<RecordItem>, s: Kept, t: Kept, n: nat)
    requires LS.LowerPhase(locals, Items(items)).Some?
    decreases n
  {
    if n == 0 then t == s
    else
      && s.exit.None? && Next(out, s).Some?
      && exists s1 ::
          CallRuns(out.ops, Next(out, s).value, locals, Items(items), Taking(s), s1)
            && LoopReaches(out, locals, items, s1, t, n - 1)
  }

  /** In every run of every compiled program the call for record `k` sees NR as `k`, FNR as its number in
      its file and NF as the number of its fields, whatever the calls before it have printed, skipped or
      assigned. */
  lemma {:induction false} RecordsAreNumbered(ops: FloatOps, f: Files, locals: set<string>, items: seq<RecordItem>,
                                              s: Kept, t: Kept, n: nat)
    requires ops.Lawful() && PhaseFits(locals, Items(items)) && LoopReaches(Reading(ops, f), locals, items, s, t, n)
    requires Counts(f, s)
    ensures Counts(f, t) && |t.taken| == |s.taken| + n
    ensures Next(Reading(ops, f), t).Some? ==>
      var (record, later) := IR.NextRecord(f.Records(), Position(f, t.taken, t.output));
      var numbers := Next(Reading(ops, f), t).value;
      && record.Some? && numbers.nr == f.number(|s.taken| + n + 1)
      && numbers.fnr == f.number(IR.LastCount(later.taken)) && numbers.nf == f.number(f.FieldCount(record.value))
    decreases n
  {
    hide Position, IR.NextRecord, CallRuns, Reading, PhaseJoins, PhaseSafe, LS.LowerPhase;
    if n == 0 {
      if Next(Reading(ops, f), t).Some? { NextIsNumbered(ops, f, t); }
    } else {
      var out := Reading(ops, f);
      ReadingOps(ops, f);
      var numbers := Next(out, s).value;
      var s1 :| CallRuns(out.ops, numbers, locals, Items(items), Taking(s), s1)
        && LoopReaches(out, locals, items, s1, t, n - 1);
      CallTakes(ops, numbers, locals, Items(items), Taking(s), s1);
      StillCounts(ops, f, s, s1);
      RecordsAreNumbered(ops, f, locals, items, s1, t, n - 1);
    }
  }

  lemma ReadingOps(ops: FloatOps, f: Files)
    ensures Reading(ops, f).ops == ops
  {
  }

  /** A call prints more and hands out no record. */
  lemma CallTakes(ops: FloatOps, builtins: BuiltinValues, locals: set<string>, phase: Phase, s: Kept, t: Kept)
    requires ops.Lawful() && PhaseFits(locals, phase) && CallRuns(ops, builtins, locals, phase, s, t)
    ensures t.taken == s.taken && s.output <= t.output
  {
    hide CallRuns, LS.LowerPhase, ExecPhase;
    CallMeans(ops, builtins, locals, phase, s, t);
    var fuel: nat :| Call(ops, AsWritten, builtins, locals, phase, s, fuel) == Some(t);
    CallGrows(ops, builtins, locals, phase, s, fuel);
  }

  lemma NothingTaken(f: Files, s: Kept)
    requires s.taken == []
    ensures Counts(f, s) && Position(f, s.taken, s.output) == IR.BEGIN
  {
  }

  // ----- A listing of the files -----

  /** `{ print NR, FNR, NF }` */
  const LISTING := Program([], [RecordItem(Always, Some([NUMBERS]))], [], [])

  const NUMBERS := Print([Builtin(NR), Builtin(FNR), Builtin(NF)])

  const FRESH := Kept(map[], [], None, [])

  function Line(a: Double, b: Double, c: Double): seq<Event> {
    [PrintedNumber(a), PrintedSeparator, PrintedNumber(b), PrintedSeparator, PrintedNumber(c), PrintedEnd]
  }

  /** The lines for the records of one file from number `k` on, `before` records having come from others. */
  function FileLines(f: Files, records: seq<string>, k: nat, before: nat): seq<Event>
    decreases |records| - k
  {
    if k >= |records| then [] else
    Line(f.number(before + k + 1), f.number(k + 1), f.number(f.FieldCount(records[k])))
      + FileLines(f, records, k + 1, before)
  }

  /** The lines for the files from number `n` on. */
  function Lines(f: Files, n: nat, before: nat): seq<Event>
    decreases |f.texts| - n
  {
    if n >= |f.texts| then [] else
    var records := IR.Records(f.texts[n], f.separator);
    FileLines(f, records, 0, before) + Lines(f, n + 1, before + |records|)
  }

  /** What is still to be listed. */
  function ToCome(f: Files, i: IR.Input): seq<Event>
    requires IR.Placed(f.Records(), i)
  {
    var n := |i.taken|;
    if !i.open then Lines(f, n, |IR.Flat(i.taken)|) else
    FileToCome(f, n, |i.taken[n - 1]|, |IR.Flat(i.taken[..n - 1])|)
  }

  /** The rest of the file before file `n`, from its record number `k` on, and the files after it. */
  function FileToCome(f: Files, n: nat, k: nat, before: nat): seq<Event>
    requires 0 < n <= |f.texts|
  {
    var records := f.Records()[n - 1];
    FileLines(f, records, k, before) + Lines(f, n, before + |records|)
  }

  lemma NextLine(f: Files, n: nat, k: nat, before: nat)
    requires 0 < n <= |f.texts| && k < |f.Records()[n - 1]|
    ensures FileToCome(f, n, k, before) ==
      Line(f.number(before + k + 1), f.number(k + 1), f.number(f.FieldCount(f.Records()[n - 1][k])))
      + FileToCome(f, n, k + 1, before)
  {
    hide Files.FieldCount, Lines, Line, Files.Records;
    AsManyFiles(f);
    var records := f.Records()[n - 1];
    var line := Line(f.number(before + k + 1), f.number(k + 1), f.number(f.FieldCount(records[k])));
    var rest, others := FileLines(f, records, k + 1, before), Lines(f, n, before + |records|);
    assert FileLines(f, records, k, before) == line + rest;
    assert line + rest + others == line + (rest + others);
  }

  /** The next record is the next line of the listing. */
  lemma {:induction false} LineToCome(f: Files, i: IR.Input)
    requires IR.InOrder(f.Records(), i) && i.cut == {}
    ensures
      var (record, later) := IR.NextRecord(f.Records(), i);
      ToCome(f, i) ==
        if record.None? then []
        else
          Line(f.number(|IR.Flat(later.taken)|), f.number(IR.LastCount(later.taken)),
               f.number(f.FieldCount(record.value)))
          + ToCome(f, later)
    decreases |f.texts| - |i.taken|
  {
    hide IR.Records, Files.FieldCount, FileLines, Lines, Line, ToCome, IR.InOrder, Files.Records, IR.LastCount, IR.Flat;
    var all := f.Records();
    IR.IsPlaced(all, i);
    AsManyFiles(f);
    if IR.More(all, i) {
      LineIsNext(f, i);
    } else {
      NoMoreToCome(f, i);
      if |i.taken| < |all| {
        IR.CloseInOrder(all, i);
        LineToCome(f, IR.Opened(i));
      }
    }
  }

  lemma AsManyFiles(f: Files)
    ensures |f.Records()| == |f.texts|
  {
  }

  /** At the end of a file the listing goes on with the next, or ends. */
  lemma NoMoreToCome(f: Files, i: IR.Input)
    requires IR.InOrder(f.Records(), i) && !IR.More(f.Records(), i)
    ensures ToCome(f, i) == if |i.taken| < |f.texts| then ToCome(f, IR.Opened(i)) else []
  {
    hide IR.Records, Files.FieldCount, IR.Flat;
    var n, count := |i.taken|, |IR.Flat(i.taken)|;
    FlatOfLast(i.taken);
    assert ToCome(f, i) == Lines(f, n, count);
    if n < |f.texts| {
      assert IR.Opened(i).taken[..n] == i.taken && IR.Opened(i).taken[n] == [];
      IR.FileRecords(f.texts, f.separator, n);
      assert f.Records()[n] == IR.Records(f.texts[n], f.separator);
    }
  }

  lemma FlatOfLast(taken: seq<seq<string>>)
    ensures taken != [] ==> IR.Flat(taken) == IR.Flat(taken[..|taken| - 1]) + taken[|taken| - 1]
  {
  }

  lemma LineIsNext(f: Files, i: IR.Input)
    requires IR.InOrder(f.Records(), i) && IR.More(f.Records(), i)
    ensures
      var later := IR.Took(f.Records(), i);
      ToCome(f, i) ==
        Line(f.number(|IR.Flat(later.taken)|), f.number(IR.LastCount(later.taken)),
             f.number(f.FieldCount(IR.Upcoming(f.Records(), i))))
        + ToCome(f, later)
  {
    hide IR.Flat, Files.FieldCount, Lines, FileLines, Line, IR.InOrder, Files.Records, FileToCome;
    var all, n := f.Records(), |i.taken|;
    var later, k := IR.Took(all, i), |i.taken[n - 1]|;
    AsManyFiles(f);
    FlatOfLast(later.taken);
    assert later.taken[..n - 1] == i.taken[..n - 1] && |later.taken[n - 1]| == k + 1;
    NextLine(f, n, k, |IR.Flat(i.taken[..n - 1])|);
  }

  /** One call of the listing prints its line, whatever the variables. */
  lemma LinePrinted(ops: FloatOps, builtins: BuiltinValues, locals: set<string>, s: Kept, fuel: nat)
    ensures
      var line := Line(builtins.nr, builtins.fnr, builtins.nf);
      Call(ops, AsWritten, builtins, locals, Items(LISTING.items), s, fuel) == Some(s.(output := s.output + line))
  {
    var cx, w := Context(ops, builtins, locals, AsWritten), World(s.persistent, map[], s.output, s.exit, {}, {});
    var item := LISTING.items[0];
    var w1 := NumbersPrinted(cx, w);
    assert Exec(cx, NUMBERS, w, fuel) == Done(Normal, w1);
    assert [NUMBERS][1..] == [] && [item][1..] == [];
    assert ExecAll(cx, [NUMBERS], w, fuel) == Done(Normal, w1);
    assert ExecItem(cx, item, w, fuel) == Done(Normal, w1);
    assert ExecItems(cx, [item], w, fuel) == Done(Normal, w1);
  }

  lemma NumbersPrinted(cx: Context, w: World) returns (w1: World)
    ensures w1 == w.(output := w.output + Line(cx.builtins.nr, cx.builtins.fnr, cx.builtins.nf))
    ensures PrintAll(cx, NUMBERS.arguments, 0, w) == w1
  {
    var a, b, c := cx.builtins.nr, cx.builtins.fnr, cx.builtins.nf;
    assert forall which, u :: Eval(cx, Builtin(which), u) == Evaluated(cx.builtins.Get(which), u);
    hide Eval;
    var es := NUMBERS.arguments;
    var u1 := Emit(PrintedNumber(a), w);
    var u2 := Emit(PrintedNumber(b), Emit(PrintedSeparator, u1));
    var u3 := Emit(PrintedNumber(c), Emit(PrintedSeparator, u2));
    w1 := Emit(PrintedEnd, u3);
    assert PrintAll(cx, es, 3, u3) == w1;
    assert PrintAll(cx, es, 2, u2) == w1;
    assert PrintAll(cx, es, 1, u1) == w1;
  }

  /** From any point of the input with no file cut short, the record loop lists what is to come. */
  lemma {:induction false} LoopLists(ops: FloatOps, f: Files, locals: set<string>, s: Kept, fuel: nat)
    requires s.exit.None? && Position(f, s.taken, s.output).cut == {}
    requires fuel + |IR.Flat(Position(f, s.taken, s.output).taken)| >= |IR.Flat(f.Records())|
    ensures
      var r := RecordLoop(Reading(ops, f), AsWritten, locals, LISTING.items, s, fuel);
      r.Some? && r.value.exit.None? && r.value.persistent == s.persistent
      && r.value.output == s.output + ToCome(f, Position(f, s.taken, s.output))
    decreases fuel
  {
    hide Position, ToCome, IR.NextRecord, IR.InOrder, IR.Flat, IR.LastCount, Call, Line, Reading, Files.FieldCount;
    var out, all, i := Reading(ops, f), f.Records(), Position(f, s.taken, s.output);
    ReadingIs(ops, f, s);
    PositionInOrder(f, s.taken, s.output);
    IR.NextOfAll(all, i);
    LineToCome(f, i);
    var (record, later) := IR.NextRecord(all, i);
    if record.Some? {
      var numbers := Next(out, s).value;
      LinePrinted(ops, numbers, locals, Taking(s), fuel);
      var line := Line(numbers.nr, numbers.fnr, numbers.nf);
      var s1 := Taking(s).(output := s.output + line);
      ListedNext(f, s, s1, line, numbers);
      LoopLists(ops, f, locals, s1, fuel - 1);
      assert s.output + line + ToCome(f, later) == s.output + (line + ToCome(f, later));
    }
  }

  lemma ReadingIs(ops: FloatOps, f: Files, s: Kept)
    ensures
      var (record, later) := IR.NextRecord(f.Records(), Position(f, s.taken, s.output));
      && Reading(ops, f).ops == ops
      && (Next(Reading(ops, f), s).Some? <==> record.Some?)
      && (record.Some? ==>
          var numbers, records := Next(Reading(ops, f), s).value, IR.Flat(later.taken);
          && records != [] && records[|records| - 1] == record.value
          && numbers == BuiltinValues(f.number(|records|), f.number(IR.LastCount(later.taken)),
                                      f.number(f.FieldCount(record.value))))
  {
    hide Position, IR.NextRecord, IR.InOrder, IR.Flat, IR.LastCount, Files.FieldCount;
    var i := Position(f, s.taken, s.output);
    PositionInOrder(f, s.taken, s.output);
    IR.NextInOrder(f.Records(), i);
    var (record, later) := IR.NextRecord(f.Records(), i);
    assert record.Some? ==> IR.Delivered([record]) == [record.value];
  }

  lemma ListedNext(f: Files, s: Kept, t: Kept, line: seq<Event>, numbers: BuiltinValues)
    requires t == Taking(s).(output := s.output + line) && line == Line(numbers.nr, numbers.fnr, numbers.nf)
    ensures Position(f, t.taken, t.output) == IR.NextRecord(f.Records(), Position(f, s.taken, s.output)).1
  {
    hide IR.NextRecord, Position;
    PositionNext(f, s, t);
    assert t.output[|s.output|..] == line;
    SkipsKeep(f.Records(), IR.NextRecord(f.Records(), Position(f, s.taken, s.output)).1, line);
  }

  lemma AllToCome(f: Files)
    ensures ToCome(f, IR.BEGIN) == Lines(f, 0, 0)
  {
  }

  lemma Idle(ops: FloatOps, builtins: BuiltinValues, locals: set<string>, s: Kept, fuel: nat)
    ensures Call(ops, AsWritten, builtins, locals, Actions([]), s, fuel) == Some(s)
  {
  }

  /** `{ print NR, FNR, NF }`, compiled, ends on any files and has printed a line for every record of every
      file in their order: its number, its number in its file, and the number of its fields. */
  lemma FilesListed(ops: FloatOps, f: Files, layout: Layout)
    requires ops.Lawful()
    ensures Supported(LISTING, layout)
    ensures exists t :: ProgramRuns(Reading(ops, f), layout, LISTING, FRESH, t)
    ensures forall t :: ProgramRuns(Reading(ops, f), layout, LISTING, FRESH, t) ==> t.output == Lines(f, 0, 0)
  {
    hide Position, ToCome, Lines, Call, ProgramRuns, RecordLoop, Line, Supported;
    ListingSupported(layout);
    var out, n := Reading(ops, f), |IR.Flat(f.Records())|;
    NothingTaken(f, FRESH);
    AllToCome(f);
    ReadingOps(ops, f);
    forall fuel | fuel >= n
      ensures
        var r := RunProgram(out, AsWritten, layout, LISTING, FRESH, fuel);
        r.Some? && r.value.output == Lines(f, 0, 0)
    {
      Idle(ops, out.atBegin, layout.begin, FRESH, fuel);
      LoopLists(ops, f, layout.record, FRESH, fuel);
      var s := RecordLoop(out, AsWritten, layout.record, LISTING.items, FRESH, fuel).value;
      Idle(ops, AtEnd(out, s), layout.end, s, fuel);
    }
    hide RunProgram;
    var whole := RunProgram(out, AsWritten, layout, LISTING, FRESH, n);
    ProgramMeans(out, layout, LISTING, FRESH, whole.value);
    forall t | ProgramRuns(out, layout, LISTING, FRESH, t)
      ensures t.output == Lines(f, 0, 0)
    {
      ProgramMeans(out, layout, LISTING, FRESH, t);
      var fuel: nat :| RunProgram(out, AsWritten, layout, LISTING, FRESH, fuel) == Some(t);
      MoreFuelProgram(out, layout, LISTING, FRESH, fuel, fuel + n);
    }
  }

  lemma ListingSupported(layout: Layout)
    ensures Supported(LISTING, layout)
  {
    NumbersFit();
    AcceptedIsSupported(LISTING, layout);
  }

  lemma NumbersFit()
    ensures OrderlyProgram(LISTING)
    ensures forall phase :: phase in [Actions([]), Items(LISTING.items), Actions([])] ==>
      PhaseAccepted(phase) && PhaseJoins(phase) && PhaseSafe(phase)
  {
    assert forall e :: e in NUMBERS.arguments ==> e.Builtin?;
  }

  // ----- The numbers before and after the records -----

  /** `BEGIN { print NR, FNR, NF } END { print NR, FNR, NF }` */
  const AROUND := Program([[NUMBERS]], [], [[NUMBERS]], [])

  lemma ActionPrinted(ops: FloatOps, builtins: BuiltinValues, locals: set<string>, s: Kept, fuel: nat)
    ensures
      var line := Line(builtins.nr, builtins.fnr, builtins.nf);
      Call(ops, AsWritten, builtins, locals, Actions([[NUMBERS]]), s, fuel) == Some(s.(output := s.output + line))
  {
    var cx, w := Context(ops, builtins, locals, AsWritten), World(s.persistent, map[], s.output, s.exit, {}, {});
    var w1 := NumbersPrinted(cx, w);
    assert Exec(cx, NUMBERS, w, fuel) == Done(Normal, w1);
    assert [NUMBERS][1..] == [] && [[NUMBERS]][1..] == [];
    assert ExecAll(cx, [NUMBERS], w, fuel) == Done(Normal, w1);
    assert ExecActions(cx, [[NUMBERS]], w, fuel) == Done(Normal, w1);
  }

  lemma NoItems(ops: FloatOps, builtins: BuiltinValues, locals: set<string>, s: Kept, fuel: nat)
    ensures Call(ops, AsWritten, builtins, locals, Items([]), s, fuel) == Some(s)
  {
  }

  /** With no record action the loop reads to the end. */
  lemma {:induction false} LoopPasses(ops: FloatOps, f: Files, locals: set<string>, s: Kept, fuel: nat)
    requires s.exit.None? && Position(f, s.taken, s.output).cut == {}
    requires fuel + |IR.Flat(Position(f, s.taken, s.output).taken)| >= |IR.Flat(f.Records())|
    ensures
      var r := RecordLoop(Reading(ops, f), AsWritten, locals, [], s, fuel);
      && r.Some? && r.value.exit.None? && r.value.output == s.output
      && AtEnd(Reading(ops, f), r.value) == NumbersAfter(f)
    decreases fuel
  {
    hide Position, IR.NextRecord, IR.InOrder, IR.Flat, IR.LastCount, Call, Reading, NumbersAfter, NumbersAtEnd;
    var out, all, i := Reading(ops, f), f.Records(), Position(f, s.taken, s.output);
    ReadingIs(ops, f, s);
    PositionInOrder(f, s.taken, s.output);
    IR.NextOfAll(all, i);
    if IR.NextRecord(all, i).0.Some? {
      var numbers := Next(out, s).value;
      NoItems(ops, numbers, locals, Taking(s), fuel);
      PassedNext(f, s);
      LoopPasses(ops, f, locals, Taking(s), fuel - 1);
    } else {
      AllPassed(ops, f, s);
    }
  }

  lemma PassedNext(f: Files, s: Kept)
    ensures Position(f, Taking(s).taken, s.output) == IR.NextRecord(f.Records(), Position(f, s.taken, s.output)).1
  {
    hide IR.NextRecord, Position;
    PositionNext(f, s, Taking(s));
    assert s.output[|s.output|..] == [];
    SkipsKeep(f.Records(), IR.NextRecord(f.Records(), Position(f, s.taken, s.output)).1, []);
  }

  /** NR counts the records of all files, FNR those of the last file, and NF is that of the last record. */
  function NumbersAfter(f: Files): BuiltinValues {
    var files := f.Records();
    var records := IR.Flat(files);
    BuiltinValues(f.number(|records|), f.number(if files == [] then 0 else |files[|files| - 1]|),
                  f.number(if records == [] then 0 else f.FieldCount(records[|records| - 1])))
  }

  lemma AllPassed(ops: FloatOps, f: Files, s: Kept)
    requires s.exit.None? && Position(f, s.taken, s.output).cut == {}
    requires IR.NextRecord(f.Records(), Position(f, s.taken, s.output)).0.None?
    ensures AtEnd(Reading(ops, f), s) == NumbersAfter(f)
  {
    hide Position, IR.NextRecord, IR.Flat, Files.FieldCount, Files.Records;
    var i := Position(f, s.taken, s.output);
    PositionInOrder(f, s.taken, s.output);
    EndIsAll(f.Records(), i);
  }

  /** Once there is no record left all records of all files have been taken. */
  lemma {:induction false} EndIsAll(all: seq<seq<string>>, i: IR.Input)
    requires IR.InOrder(all, i) && i.cut == {} && IR.NextRecord(all, i).0.None?
    ensures IR.NextRecord(all, i).1.taken == all
    decreases |all| - |i.taken|
  {
    IR.IsPlaced(all, i);
    if |i.taken| < |all| {
      IR.CloseInOrder(all, i);
      EndIsAll(all, IR.Opened(i));
    }
  }

  function LinesAround(f: Files): seq<Event> {
    var zero, after := f.number(0), NumbersAfter(f);
    Line(zero, zero, zero) + Line(after.nr, after.fnr, after.nf)
  }

  lemma ReadingBegins(ops: FloatOps, f: Files)
    ensures Reading(ops, f).atBegin == BuiltinValues(f.number(0), f.number(0), f.number(0))
  {
  }

  lemma AroundRuns(ops: FloatOps, f: Files, layout: Layout, fuel: nat)
    requires fuel >= |IR.Flat(f.Records())|
    ensures
      var r := RunProgram(Reading(ops, f), AsWritten, layout, AROUND, FRESH, fuel);
      r.Some? && r.value.output == LinesAround(f)
  {
    hide Position, Call, RecordLoop, Line, NumbersAfter, Reading, AtEnd, IR.Flat, Files.Records;
    var out, zero := Reading(ops, f), f.number(0);
    var s1 := FRESH.(output := [] + Line(zero, zero, zero));
    NothingTaken(f, s1);
    ReadingOps(ops, f);
    ReadingBegins(ops, f);
    ActionPrinted(ops, out.atBegin, layout.begin, FRESH, fuel);
    LoopPasses(ops, f, layout.record, s1, fuel);
    var s := RecordLoop(out, AsWritten, layout.record, [], s1, fuel).value;
    ActionPrinted(ops, AtEnd(out, s), layout.end, s, fuel);
  }

  lemma AroundEnds(ops: FloatOps, f: Files, layout: Layout)
    requires ops.Lawful() && Supported(AROUND, layout)
    ensures exists t :: ProgramRuns(Reading(ops, f), layout, AROUND, FRESH, t)
  {
    hide ProgramRuns, Supported, LinesAround, RunProgram, Reading, FRESH, AROUND, Files.Records, IR.Flat;
    ReadingOps(ops, f);
    var out, n := Reading(ops, f), |IR.Flat(f.Records())|;
    AroundRuns(ops, f, layout, n);
    ProgramMeans(out, layout, AROUND, FRESH, RunProgram(out, AsWritten, layout, AROUND, FRESH, n).value);
  }

  lemma AroundPrints(ops: FloatOps, f: Files, layout: Layout, t: Kept)
    requires ops.Lawful() && Supported(AROUND, layout) && ProgramRuns(Reading(ops, f), layout, AROUND, FRESH, t)
    ensures t.output == LinesAround(f)
  {
    hide ProgramRuns, Supported, LinesAround, RunProgram, Reading, FRESH, AROUND, Files.Records, IR.Flat;
    ReadingOps(ops, f);
    var out, n := Reading(ops, f), |IR.Flat(f.Records())|;
    ProgramMeans(out, layout, AROUND, FRESH, t);
    var fuel: nat :| RunProgram(out, AsWritten, layout, AROUND, FRESH, fuel) == Some(t);
    MoreFuelProgram(out, layout, AROUND, FRESH, fuel, fuel + n);
    AroundRuns(ops, f, layout, fuel + n);
  }

  /** Compiled and run over any files, the program prints zeros before the records and the numbers of all
      of them after. */
  lemma NumbersAround(ops: FloatOps, f: Files, layout: Layout)
    requires ops.Lawful()
    ensures Supported(AROUND, layout)
    ensures exists t :: ProgramRuns(Reading(ops, f), layout, AROUND, FRESH, t)
    ensures forall t :: ProgramRuns(Reading(ops, f), layout, AROUND, FRESH, t) ==> t.output == LinesAround(f)
  {
    hide ProgramRuns, Supported, LinesAround, Reading, FRESH, AROUND;
    AroundSupported(layout);
    AroundEnds(ops, f, layout);
    forall t | ProgramRuns(Reading(ops, f), layout, AROUND, FRESH, t)
      ensures t.output == LinesAround(f)
    {
      AroundPrints(ops, f, layout, t);
    }
  }

  lemma AroundSupported(layout: Layout)
    ensures Supported(AROUND, layout)
  {
    AroundFits();
    AcceptedIsSupported(AROUND, layout);
  }

  lemma AroundFits()
    ensures OrderlyProgram(AROUND)
    ensures forall phase :: phase in [Actions([[NUMBERS]]), Items([]), Actions([[NUMBERS]])] ==>
      PhaseAccepted(phase) && PhaseJoins(phase) && PhaseSafe(phase)
  {
    assert forall e :: e in NUMBERS.arguments ==> e.Builtin?;
  }
}

/** Reading records from a list of files: a character at a time into a growing buffer, over file
    boundaries, with `nextfile` closing a file early. */
module InputReader {
  import opened Options
  import opened CStrings

  // ----- Records of one file -----

  /** How many characters the first record takes, up to a separator or the end. */
  function UpTo(text: string, separator: char): (n: nat)
    ensures n <= |text| && separator !in text[..n] && (n < |text| ==> text[n] == separator)
  {
    if text == "" || text[0] == separator then 0 else
    var n := 1 + UpTo(text[1..], separator);
    assert text[..n] == [text[0]] + text[1..][..n - 1];
    n
  }

  /** A carriage return before a newline is dropped. */
  function Stripped(record: string, separator: char): string {
    if separator == '\n' && record != "" && record[|record| - 1] == '\r' then record[..|record| - 1] else record
  }

  /** The text after the first record and its separator. */
  function Beyond(text: string, separator: char): string {
    var n := UpTo(text, separator);
    if n < |text| then text[n + 1..] else ""
  }

  function FirstRecord(text: string, separator: char): string {
    Stripped(text[..UpTo(text, separator)], separator)
  }

  lemma StopsThere(text: string, separator: char, n: nat)
    requires n < |text| && n <= UpTo(text, separator)
    ensures text[n] == separator <==> n == UpTo(text, separator)
  {
    var stop := UpTo(text, separator);
    if n < stop { assert text[n] == text[..stop][n]; }
  }

  /** Reading one character further, up to the separator or the end. */
  lemma ReadOn(text: string, separator: char, n: nat)
    requires n <= UpTo(text, separator)
    ensures n == |text| ==> text[n..] == "" && n == UpTo(text, separator) && Beyond(text, separator) == ""
    ensures n < |text| ==>
      && text[n..] != "" && text[n..][0] == text[n] && text[n..][1..] == text[n + 1..]
        && text[..n + 1] == text[..n] + [text[n]]
      && (if text[n] == separator then n == UpTo(text, separator) && Beyond(text, separator) == text[n + 1..]
          else n < UpTo(text, separator))
  {
    if n < |text| { StopsThere(text, separator, n); }
  }

  lemma RecordEnds(text: string, separator: char)
    ensures
      var n := UpTo(text, separator);
      FirstRecord(text, separator) == text[..if separator == '\n' && n > 0 && text[n - 1] == '\r' then n - 1 else n]
  {
  }

  lemma RecordsStart(text: string, separator: char)
    requires text != ""
    ensures Records(text, separator) == [FirstRecord(text, separator)] + Records(Beyond(text, separator), separator)
  {
  }

  lemma NoRecords(separator: char)
    ensures Records("", separator) == []
  {
  }

  /** A file's records; a separator at its very end starts no further record. */
  function Records(text: string, separator: char): seq<string>
    decreases |text|
  {
    if text == "" then [] else [FirstRecord(text, separator)] + Records(Beyond(text, separator), separator)
  }

  /** Records with a separator after each. */
  function Ended(records: seq<string>, separator: char): string {
    if records == [] then "" else records[0] + [separator] + Ended(records[1..], separator)
  }

  /** The text without the carriage returns that come before a newline or at its end. */
  function Unix(text: string): string {
    if text == "" then ""
    else if text[0] == '\r' && (|text| == 1 || text[1] == '\n') then Unix(text[1..])
    else [text[0]] + Unix(text[1..])
  }

  /** What the records keep of the text: all of it, but for carriage returns at the ends of lines. */
  function Kept(text: string, separator: char): string {
    if separator == '\n' then Unix(text) else text
  }

  lemma UnixStart(c: char, rest: string)
    ensures Unix([c] + rest) == if c == '\r' && (rest == "" || rest[0] == '\n') then Unix(rest) else [c] + Unix(rest)
  {
    assert ([c] + rest)[1..] == rest;
  }

  lemma StrippedStart(c: char, rest: string)
    ensures Stripped([c] + rest, '\n') == if rest != "" then [c] + Stripped(rest, '\n')
      else if c == '\r' then "" else [c]
  {
    var s := [c] + rest;
    if rest != "" {
      assert s[|s| - 1] == rest[|rest| - 1];
      assert s[..|s| - 1] == [c] + rest[..|rest| - 1];
    } else {
      assert s == [c];
    }
  }

  lemma {:induction false} UnixLine(line: string)
    requires '\n' !in line
    ensures Unix(line) == Stripped(line, '\n')
  {
    if line != "" {
      var c, more := line[0], line[1..];
      assert line == [c] + more;
      UnixStart(c, more);
      StrippedStart(c, more);
      UnixLine(more);
    }
  }

  lemma {:induction false} UnixApart(line: string, rest: string)
    requires '\n' !in line
    ensures Unix(line + (['\n'] + rest)) == Stripped(line, '\n') + (['\n'] + Unix(rest))
  {
    if line == "" {
      assert line + (['\n'] + rest) == ['\n'] + rest && Stripped(line, '\n') == "";
      UnixStart('\n', rest);
      assert "" + (['\n'] + Unix(rest)) == ['\n'] + Unix(rest);
    } else {
      var c, more := line[0], line[1..];
      assert line == [c] + more;
      UnixStart(c, more + (['\n'] + rest));
      StrippedStart(c, more);
      UnixApart(more, rest);
      hide Unix, Stripped;
      Grouped([c], more, ['\n'] + rest);
      Grouped([c], Stripped(more, '\n'), ['\n'] + Unix(rest));
      if more == "" {
        StrippedNothing();
        assert more + (['\n'] + rest) == ['\n'] + rest;
        assert "" + (['\n'] + Unix(rest)) == ['\n'] + Unix(rest);
      } else {
        assert (more + (['\n'] + rest))[0] == more[0];
      }
    }
  }

  lemma StrippedNothing()
    ensures Stripped("", '\n') == ""
  {
  }

  lemma Grouped(a: string, b: string, c: string)
    ensures (a + b) + c == a + (b + c)
  {
  }

  /** The records are the file cut at its separators: with one after each they make up all that is
      kept of the file, but for a separator missing at its end, and none of them contains one. */
  lemma {:induction false} RecordsAreTheFile(text: string, separator: char)
    ensures Ended(Records(text, separator), separator) ==
      if text == "" || text[|text| - 1] == separator then Kept(text, separator) else Kept(text, separator) + [separator]
    ensures forall r :: r in Records(text, separator) ==> separator !in r
    decreases |text|
  {
    if text != "" {
      var n, first, rest := UpTo(text, separator), FirstRecord(text, separator), Beyond(text, separator);
      RecordsStart(text, separator);
      Divided(text, separator);
      NoRecords(separator);
      hide *;
      RecordsAreTheFile(rest, separator);
      EndedStart(first, Records(rest, separator), separator);
      if n < |text| {
        assert rest != "" ==> text[|text| - 1] == rest[|rest| - 1];
        Grouped(first + [separator], Kept(rest, separator), [separator]);
      } else {
        assert Ended(Records(text, separator), separator) == Kept(text, separator) + [separator] + "";
      }
    }
  }

  /** The first record, its separator if it has one, and the rest. */
  lemma Divided(text: string, separator: char)
    requires text != ""
    ensures
      var n, first, rest := UpTo(text, separator), FirstRecord(text, separator), Beyond(text, separator);
      && separator !in first && Ended([], separator) == "" && Kept("", separator) == "" && |rest| < |text|
      && (if n < |text| then Kept(text, separator) == first + [separator] + Kept(rest, separator)
          && rest == text[n + 1..] && text[n] == separator
          else Kept(text, separator) == first && rest == "" && text[|text| - 1] != separator)
  {
    var n := UpTo(text, separator);
    var line, after := text[..n], Beyond(text, separator);
    KeptNothing(separator);
    hide Records, Unix, Ended, UpTo, Stripped;
    if n == |text| {
      assert line == text && text[|text| - 1] in line;
      KeptLine(line, separator);
    } else {
      assert text == line + ([separator] + after);
      KeptApart(line, after, separator);
      Grouped(Stripped(line, separator), [separator], Kept(after, separator));
    }
  }

  lemma KeptLine(line: string, separator: char)
    requires separator !in line
    ensures Kept(line, separator) == Stripped(line, separator)
  {
    if separator == '\n' { UnixLine(line); }
  }

  lemma KeptApart(line: string, rest: string, separator: char)
    requires separator !in line
    ensures Kept(line + ([separator] + rest), separator) == Stripped(line, separator)
      + ([separator] + Kept(rest, separator))
  {
    if separator == '\n' { UnixApart(line, rest); }
  }

  lemma KeptNothing(separator: char)
    ensures Kept("", separator) == "" && Ended([], separator) == ""
  {
  }

  lemma EndedStart(first: string, rest: seq<string>, separator: char)
    ensures Ended([first] + rest, separator) == first + [separator] + Ended(rest, separator)
  {
    assert ([first] + rest)[1..] == rest;
  }

  // ----- Records of all files -----

  function Flat(taken: seq<seq<string>>): seq<string> {
    if taken == [] then [] else Flat(taken[..|taken| - 1]) + taken[|taken| - 1]
  }

  /** The number of the record in its file. */
  function LastCount(taken: seq<seq<string>>): nat {
    if taken == [] then 0 else |taken[|taken| - 1]|
  }

  lemma OneMore(taken: seq<seq<string>>, record: string)
    requires taken != []
    ensures
      var last := |taken| - 1;
      var more := taken[last := taken[last] + [record]];
      Flat(more) == Flat(taken) + [record] && LastCount(more) == LastCount(taken) + 1
  {
    var last := |taken| - 1;
    assert taken[last := taken[last] + [record]][..last] == taken[..last];
  }

  lemma NewFile(taken: seq<seq<string>>)
    ensures Flat(taken + [[]]) == Flat(taken) && LastCount(taken + [[]]) == 0
  {
    assert (taken + [[]])[..|taken|] == taken;
  }

  /** What a run has done with the record lists of all files: for each file opened so far the
      records delivered from it, whether the last of them is still open, and the files that were
      open when a `nextfile` came. */
  datatype Input = Input(open: bool, taken: seq<seq<string>>, cut: set<nat>)

  const BEGIN := Input(false, [], {})

  datatype Request = Read | Skip

  predicate Placed(all: seq<seq<string>>, i: Input) {
    |i.taken| <= |all| && (i.open ==> i.taken != [])
  }

  predicate More(all: seq<seq<string>>, i: Input) {
    Placed(all, i) && i.open && |i.taken[|i.taken| - 1]| < |all[|i.taken| - 1]|
  }

  /** The next record of the open file. */
  function Upcoming(all: seq<seq<string>>, i: Input): string
    requires More(all, i)
  {
    all[|i.taken| - 1][|i.taken[|i.taken| - 1]|]
  }

  function Took(all: seq<seq<string>>, i: Input): Input
    requires More(all, i)
  {
    var last := |i.taken| - 1;
    i.(taken := i.taken[last := i.taken[last] + [Upcoming(all, i)]])
  }

  function Opened(i: Input): Input {
    i.(open := true, taken := i.taken + [[]])
  }

  /** The next record, over as many ends of files as lie before it. */
  function NextRecord(all: seq<seq<string>>, i: Input): (r: (Option<string>, Input))
    requires Placed(all, i)
    ensures Placed(all, r.1)
    decreases |all| - |i.taken|
  {
    if More(all, i) then (Some(Upcoming(all, i)), Took(all, i))
    else if |i.taken| == |all| then (None, i.(open := false))
    else NextRecord(all, Opened(i))
  }

  /** `nextfile`. */
  function Skipped(i: Input): Input {
    if i.open && i.taken != [] then i.(open := false, cut := i.cut + {|i.taken| - 1}) else i.(open := false)
  }

  function After(all: seq<seq<string>>, i: Input, requests: seq<Request>): (later: Input)
    requires Placed(all, i)
    ensures Placed(all, later)
    decreases requests
  {
    if requests == [] then i
    else After(all, if requests[0].Skip? then Skipped(i) else NextRecord(all, i).1, requests[1..])
  }

  /** What each `Read` gets. */
  function Answers(all: seq<seq<string>>, i: Input, requests: seq<Request>): seq<Option<string>>
    requires Placed(all, i)
    decreases requests
  {
    if requests == [] then []
    else if requests[0].Skip? then Answers(all, Skipped(i), requests[1..])
    else [NextRecord(all, i).0] + Answers(all, NextRecord(all, i).1, requests[1..])
  }

  /** The answers that are records. */
  function Delivered(answers: seq<Option<string>>): seq<string> {
    if answers == [] then []
    else (if answers[0].Some? then [answers[0].value] else []) + Delivered(answers[1..])
  }

  /** Every file but an open one is delivered whole, unless a `nextfile` came while it was open. */
  ghost predicate InOrder(all: seq<seq<string>>, i: Input) {
    && Placed(all, i)
    && (forall k :: 0 <= k < |i.taken| ==> i.taken[k] <= all[k])
    && (forall k :: 0 <= k < |i.taken| && k !in i.cut && (i.open ==> k < |i.taken| - 1) ==> i.taken[k] == all[k])
    && (i.open ==> |i.taken| - 1 !in i.cut)
    && (forall k :: k in i.cut ==> k < |i.taken|)
  }

  lemma TakeInOrder(all: seq<seq<string>>, i: Input)
    requires InOrder(all, i) && More(all, i)
    ensures
      var later := Took(all, i);
      && InOrder(all, later) && |later.taken| == |i.taken| && later.open
      && Flat(later.taken) == Flat(i.taken) + [Upcoming(all, i)] && LastCount(later.taken) == LastCount(i.taken) + 1
      && later.taken[|i.taken| - 1] == i.taken[|i.taken| - 1] + [Upcoming(all, i)]
  {
    OneMore(i.taken, Upcoming(all, i));
    hide Flat, LastCount;
  }

  lemma CloseInOrder(all: seq<seq<string>>, i: Input)
    requires InOrder(all, i) && !More(all, i)
    ensures InOrder(all, i.(open := false))
    ensures |i.taken| < |all| ==> InOrder(all, Opened(i))
  {
    assert i.open ==> i.taken[|i.taken| - 1] == all[|i.taken| - 1];
  }

  lemma {:induction false} NextInOrder(all: seq<seq<string>>, i: Input)
    requires InOrder(all, i)
    ensures
      var (record, later) := NextRecord(all, i);
      && InOrder(all, later) && later.cut == i.cut
      && Flat(later.taken) == Flat(i.taken) + Delivered([record])
      && (record.None? ==> |later.taken| == |all| && !later.open)
    decreases |all| - |i.taken|
  {
    if More(all, i) {
      TakeInOrder(all, i);
      hide InOrder, Flat, Took, Upcoming;
    } else {
      CloseInOrder(all, i);
      hide InOrder, Flat;
      if |i.taken| < |all| {
        NewFile(i.taken);
        NextInOrder(all, Opened(i));
      }
    }
  }

  /** Over every run of requests what is delivered is, file by file, the file's records in order:
      all of them, unless a `nextfile` came while the file was open or it is open still. */
  lemma {:induction false} DeliveredInOrder(all: seq<seq<string>>, i: Input, requests: seq<Request>)
    requires InOrder(all, i)
    ensures
      var later := After(all, i, requests);
      && InOrder(all, later) && i.cut <= later.cut
      && Flat(later.taken) == Flat(i.taken) + Delivered(Answers(all, i, requests))
    decreases requests
  {
    DeliveredStart();
    if requests != [] {
      hide NextRecord, Flat, InOrder, Delivered;
      if requests[0].Skip? {
        SkippedInOrder(all, i);
        DeliveredInOrder(all, Skipped(i), requests[1..]);
      } else {
        var (record, later) := NextRecord(all, i);
        var more := Answers(all, later, requests[1..]);
        NextInOrder(all, i);
        DeliveredInOrder(all, later, requests[1..]);
        Regrouped(Flat(i.taken), Delivered([record]), Delivered(more));
        DeliveredMore(record, more);
      }
    }
  }

  lemma DeliveredStart()
    ensures Delivered([]) == []
  {
  }

  lemma DeliveredMore(answer: Option<string>, more: seq<Option<string>>)
    ensures Delivered([answer] + more) == Delivered([answer]) + Delivered(more)
  {
    assert ([answer] + more)[1..] == more;
  }

  lemma Regrouped(a: seq<string>, b: seq<string>, c: seq<string>)
    ensures (a + b) + c == a + (b + c)
  {
  }

  lemma SkippedInOrder(all: seq<seq<string>>, i: Input)
    requires InOrder(all, i)
    ensures InOrder(all, Skipped(i)) && Skipped(i).taken == i.taken && i.cut <= Skipped(i).cut
  {
  }

  /** The files cut short are exactly those open when a `nextfile` came. */
  lemma {:induction false} CutBySkips(all: seq<seq<string>>, requests: seq<Request>, k: nat)
    ensures k in After(all, BEGIN, requests).cut <==>
      exists p :: 0 <= p < |requests| && requests[p].Skip? && OpenAt(all, requests[..p], k)
    decreases |requests|
  {
    hide After, OpenAt;
    if requests == [] {
      AfterNothing(all);
    } else {
      var last := |requests| - 1;
      var before := requests[..last];
      CutBySkips(all, before, k);
      CutAtLast(all, requests, k);
      forall p | 0 <= p < last
        ensures before[..p] == requests[..p] && before[p] == requests[p]
      {
      }
    }
  }

  lemma AfterNothing(all: seq<seq<string>>)
    ensures After(all, BEGIN, []).cut == {}
  {
  }

  lemma CutAtLast(all: seq<seq<string>>, requests: seq<Request>, k: nat)
    requires requests != []
    ensures
      var last := |requests| - 1;
      k in After(all, BEGIN, requests).cut <==>
        k in After(all, BEGIN, requests[..last]).cut || (requests[last].Skip? && OpenAt(all, requests[..last], k))
  {
    hide NextRecord, After, InOrder;
    var before := requests[..|requests| - 1];
    AfterLast(all, BEGIN, requests);
    InOrderAtFirst(all);
    DeliveredInOrder(all, BEGIN, before);
    NextInOrder(all, After(all, BEGIN, before));
  }

  predicate OpenAt(all: seq<seq<string>>, requests: seq<Request>, k: nat) {
    var i := After(all, BEGIN, requests);
    i.open && k == |i.taken| - 1
  }

  lemma InOrderAtFirst(all: seq<seq<string>>)
    ensures InOrder(all, BEGIN)
  {
  }

  lemma {:induction false} AfterLast(all: seq<seq<string>>, i: Input, requests: seq<Request>)
    requires requests != [] && Placed(all, i)
    ensures
      var last := |requests| - 1;
      var before := After(all, i, requests[..last]);
      After(all, i, requests) == if requests[last].Skip? then Skipped(before) else NextRecord(all, before).1
    decreases requests
  {
    hide NextRecord;
    var next := if requests[0].Skip? then Skipped(i) else NextRecord(all, i).1;
    if |requests| > 1 {
      AfterLast(all, next, requests[1..]);
      assert requests[1..][..|requests| - 2] == requests[..|requests| - 1][1..];
    } else {
      assert requests[1..] == [] && requests[..0] == [];
    }
  }

  /** With no `nextfile`, the answers are the records of all files in order, and none after that. */
  lemma {:induction false} ReadsGetAll(all: seq<seq<string>>, i: Input, n: nat, requests: seq<Request>)
    requires InOrder(all, i) && i.cut == {} && Skip !in requests && n == |Flat(i.taken)|
    ensures |Answers(all, i, requests)| == |requests|
    ensures forall k :: 0 <= k < |requests| ==>
      Answers(all, i, requests)[k] == if n + k < |Flat(all)| then Some(Flat(all)[n + k]) else None
    decreases requests
  {
    hide NextRecord, Flat, InOrder;
    IsPlaced(all, i);
    if requests != [] {
      NextOfAll(all, i);
      ReadsGetAll(all, NextRecord(all, i).1, |Flat(NextRecord(all, i).1.taken)|, requests[1..]);
    }
  }

  lemma IsPlaced(all: seq<seq<string>>, i: Input)
    requires InOrder(all, i)
    ensures Placed(all, i)
  {
  }

  /** Where no file is cut short, the next record is the next of all. */
  lemma NextOfAll(all: seq<seq<string>>, i: Input)
    requires InOrder(all, i) && i.cut == {}
    ensures
      var (record, later) := NextRecord(all, i);
      var n := |Flat(i.taken)|;
      && InOrder(all, later) && later.cut == {}
      && (if record.None? then n == |Flat(all)| && |Flat(later.taken)| == n
          else n < |Flat(all)| && Flat(all)[n] == record.value && |Flat(later.taken)| == n + 1)
  {
    hide NextRecord, Flat, InOrder;
    IsPlaced(all, i);
    var (record, later) := NextRecord(all, i);
    var n := |Flat(i.taken)|;
    NextInOrder(all, i);
    TakenIsPrefix(all, i);
    TakenIsPrefix(all, later);
    if record.Some? {
      assert Delivered([record]) == [record.value];
      assert Flat(later.taken)[n] == record.value;
    } else {
      assert Delivered([record]) == [];
    }
  }

  lemma TakenIsPrefix(all: seq<seq<string>>, i: Input)
    requires InOrder(all, i) && i.cut == {}
    ensures Flat(i.taken) <= Flat(all)
    ensures |i.taken| == |all| && !i.open ==> Flat(i.taken) == Flat(all)
  {
    hide Flat, InOrder;
    var m := |i.taken|;
    TakenSlices(all, i);
    FlatPrefix(all, m);
    if m > 0 {
      FlatPut(all[..m], m);
      FlatPut(i.taken, m);
      assert all[..m][..m - 1] == all[..m - 1];
      PrefixGrows(Flat(all[..m - 1]), i.taken[m - 1], all[m - 1], Flat(all));
    } else {
      assert all[..0] == i.taken;
    }
  }

  lemma TakenSlices(all: seq<seq<string>>, i: Input)
    requires InOrder(all, i) && i.cut == {}
    ensures
      var m := |i.taken|;
      && m <= |all| && (m == |all| && !i.open ==> i.taken == all)
      && (m > 0 ==> i.taken[..m - 1] == all[..m - 1] && i.taken[m - 1] <= all[m - 1])
  {
  }

  lemma PrefixGrows(a: seq<string>, b: seq<string>, c: seq<string>, d: seq<string>)
    requires b <= c && a + c <= d
    ensures a + b <= d
  {
    assert a + b == (a + c)[..|a| + |b|];
  }

  lemma FlatPut(taken: seq<seq<string>>, m: nat)
    requires m == |taken| > 0
    ensures Flat(taken) == Flat(taken[..m - 1]) + taken[m - 1]
  {
  }

  lemma {:induction false} FlatPrefix(all: seq<seq<string>>, m: nat)
    requires m <= |all|
    ensures Flat(all[..m]) <= Flat(all)
    decreases |all|
  {
    if m < |all| {
      FlatPrefix(all[..|all| - 1], m);
      assert all[..|all| - 1][..m] == all[..m];
    } else {
      assert all[..m] == all;
    }
  }

  function AllRecords(files: seq<string>, separator: char): (all: seq<seq<string>>)
    ensures |all| == |files|
  {
    seq(|files|, i requires 0 <= i < |files| => Records(files[i], separator))
  }

  lemma FileRecords(files: seq<string>, separator: char, k: nat)
    requires k < |files|
    ensures AllRecords(files, separator)[k] == [] + Records(files[k], separator)
  {
  }

  class Reader {
    const files: seq<string>
    const separator: char
    var nextInput: nat
    var handle: Option<string>
    var buffer: array<char>
    var nr: nat
    var fnr: nat
    /** For each file opened so far, the records delivered from it; and the files left early. */
    ghost var taken: seq<seq<string>>
    ghost var cut: set<nat>

    constructor (files: seq<string>, separator: char)
      ensures Valid() && fresh(buffer) && this.files == files && this.separator == separator && Now() == BEGIN
    {
      this.files, this.separator := files, separator;
      nextInput, handle, nr, fnr := 0, None, 0, 0;
      buffer := new char[0];
      taken, cut := [], {};
    }

    /** Where the run is, in terms of records. */
    ghost function Now(): Input
      reads this
    {
      Input(handle.Some?, taken, cut)
    }

    ghost function All(): seq<seq<string>>
      reads this
    {
      AllRecords(files, separator)
    }

    ghost predicate Valid()
      reads this
    {
      && nextInput == |taken| && Placed(All(), Now()) && InOrder(All(), Now())
      && nr == |Flat(taken)| && fnr == LastCount(taken)
      && (handle.Some? ==> All()[nextInput - 1] == taken[nextInput - 1] + Records(handle.value, separator))
    }

    /** Room for one more character and the NUL after it. */
    method Grow(length: nat)
      requires length < buffer.Length
      modifies this`buffer
      ensures length + 1 < buffer.Length && (buffer == old(buffer) || fresh(buffer))
        && buffer[..length] == old(buffer[..length])
    {
      if length + 1 >= buffer.Length {
        var grown := new char[2 * buffer.Length];
        for i := 0 to buffer.Length
          invariant buffer == old(buffer) && grown[..i] == buffer[..i]
        {
          grown[i] := buffer[i];
        }
        buffer := grown;
      }
    }

    /** One record of the open file into the buffer; `None` at its end. */
    method ReadRecord() returns (length: Option<nat>)
      requires handle.Some?
      modifies this`buffer, this`handle, buffer
      ensures buffer == old(buffer) || fresh(buffer)
      ensures handle.Some? && (length.None? <==> old(handle).value == "")
      ensures length.None? ==> handle.value == ""
      ensures length.Some? ==>
        && handle.value == Beyond(old(handle).value, separator)
        && length.value < buffer.Length && buffer[length.value] == NUL
        && buffer[..length.value] == FirstRecord(old(handle).value, separator)
    {
      hide UpTo, Beyond, FirstRecord;
      ghost var text := handle.value;
      if buffer.Length == 0 {
        buffer := new char[128];
      }
      if handle.value == "" {
        return None;
      }
      var n := ReadUpTo();
      RecordEnds(text, separator);
      assert n > 0 ==> buffer[n - 1] == buffer[..n][n - 1];
      if separator == '\n' && n > 0 && buffer[n - 1] == '\r' {
        n := n - 1;
      }
      assert buffer[..n] == FirstRecord(text, separator);
      buffer[n] := NUL;
      length := Some(n);
    }

    /** The text up to the separator into the buffer, which leaves room for the NUL. */
    method ReadUpTo() returns (n: nat)
      requires handle.Some? && buffer.Length > 0
      modifies this`buffer, this`handle, buffer
      ensures handle == Some(Beyond(old(handle).value, separator)) && (buffer == old(buffer) || fresh(buffer))
      ensures n == UpTo(old(handle).value, separator) && n < buffer.Length && buffer[..n] == old(handle).value[..n]
    {
      hide UpTo, Beyond;
      ghost var text := handle.value;
      n := 0;
      while handle.value != ""
        invariant n <= |text| && handle == Some(text[n..]) && n <= UpTo(text, separator)
        invariant n < buffer.Length && (buffer == old(buffer) || fresh(buffer)) && buffer[..n] == text[..n]
        decreases |text| - n
      {
        ReadOn(text, separator, n);
        var c := handle.value[0];
        handle := Some(handle.value[1..]);
        if c == separator {
          return;
        }
        Grow(n);
        buffer[n] := c;
        n := n + 1;
      }
      ReadOn(text, separator, n);
    }

    /** Open the next file, if there is one. */
    method OpenNextInput() returns (found: bool)
      requires Valid() && handle.None?
      modifies this`nextInput, this`handle, this`fnr, this`taken
      ensures Valid() && found == (|old(taken)| < |files|)
      ensures Now() == if found then Opened(old(Now())) else old(Now())
    {
      hide Records, Flat, InOrder, AllRecords, LastCount;
      CloseInOrder(All(), Now());
      NewFile(taken);
      found := nextInput < |files|;
      if found {
        FileRecords(files, separator, nextInput);
        handle := Some(files[nextInput]);
        nextInput := nextInput + 1;
        fnr := 0;
        taken := taken + [[]];
      }
    }

    /** The next record of the open file, counted and delivered. */
    method TakeRecord() returns (record: Option<string>)
      requires Valid() && handle.Some?
      modifies this`handle, this`fnr, this`nr, this`taken, this`buffer, buffer
      ensures Valid() && (buffer == old(buffer) || fresh(buffer))
      ensures old(More(All(), Now())) ==>
        record == Some(old(Upcoming(All(), Now()))) && Now() == old(Took(All(), Now()))
      ensures !old(More(All(), Now())) ==> record == None && Now() == old(Now())
    {
      ghost var text := handle.value;
      NextTaken(All(), Now(), text, separator);
      hide *;
      var length := ReadRecord();
      if length.None? {
        return None;
      }
      record := Some(buffer[..length.value]);
      CountRecord(text);
    }

    /** A record of the open file has been read: the file's text is now what lies beyond it. */
    method CountRecord(ghost text: string)
      requires InOrder(All(), Now()) && nextInput == |taken| && handle.Some? && handle.value == Beyond(text, separator)
        && text != ""
      requires nr == |Flat(taken)| && fnr == LastCount(taken)
        && All()[nextInput - 1] == taken[nextInput - 1] + Records(text, separator)
      modifies this`nr, this`fnr, this`taken
      ensures Valid() && More(All(), old(Now())) && Now() == Took(All(), old(Now()))
    {
      hide Records, Beyond, Flat, InOrder, Placed, AllRecords, LastCount, Took, More, Upcoming, FirstRecord;
      NextTaken(All(), Now(), text, separator);
      nr := nr + 1;
      fnr := fnr + 1;
      taken := Took(All(), Now()).taken;
    }

    /** The next record of the input, over as many ends of files as lie before it. */
    method ReadMainLine() returns (record: Option<string>)
      requires Valid()
      modifies this`nextInput, this`handle, this`fnr, this`nr, this`taken, this`buffer, buffer
      ensures Valid() && (buffer == old(buffer) || fresh(buffer))
      ensures (record, Now()) == NextRecord(All(), old(Now()))
    {
      hide Records, FirstRecord, Beyond, Flat, InOrder, AllRecords;
      while true
        invariant Valid() && (buffer == old(buffer) || fresh(buffer))
        invariant NextRecord(All(), Now()) == NextRecord(All(), old(Now()))
        decreases |files| - nextInput, if handle.Some? then 1 else 0
      {
        if handle.None? {
          var found := OpenNextInput();
          if !found {
            return None;
          }
        }
        record := TakeRecord();
        if record.Some? {
          return;
        }
        Close();
      }
    }

    /** Close an open file that has been read to its end. */
    method Close()
      requires Valid() && handle.Some? && !More(All(), Now())
      modifies this`handle
      ensures Valid() && Now() == old(Now()).(open := false)
    {
      CloseInOrder(All(), Now());
      hide Records, Flat, InOrder;
      handle := None;
    }

    /** `nextfile`. */
    method NextFile()
      requires Valid()
      modifies this`handle, this`cut
      ensures Valid() && Now() == Skipped(old(Now()))
    {
      SkippedInOrder(All(), Now());
      hide Records, Flat;
      if handle.Some? {
        cut := cut + {nextInput - 1};
      }
      handle := None;
    }
  }

  /** The file's next record is the first one of the text still to be read. */
  lemma NextTaken(all: seq<seq<string>>, i: Input, text: string, separator: char)
    requires InOrder(all, i) && i.open && all[|i.taken| - 1] == i.taken[|i.taken| - 1] + Records(text, separator)
    ensures More(all, i) <==> text != ""
    ensures text == "" ==> Records("", separator) == []
    ensures text != "" ==>
      var later := Took(all, i);
      && Upcoming(all, i) == FirstRecord(text, separator) && later == i.(taken := later.taken)
      && Placed(all, later) && InOrder(all, later) && |later.taken| == |i.taken|
      && |Flat(later.taken)| == |Flat(i.taken)| + 1 && LastCount(later.taken) == LastCount(i.taken) + 1
      && all[|i.taken| - 1] == later.taken[|i.taken| - 1] + Records(Beyond(text, separator), separator)
  {
    NoRecords(separator);
    if text != "" {
      RecordsStart(text, separator);
      hide FirstRecord, Beyond, Records, Flat, LastCount;
      ghost var last := i.taken[|i.taken| - 1];
      assert all[|i.taken| - 1]
          == last + ([FirstRecord(text, separator)] + Records(Beyond(text, separator), separator));
      assert More(all, i) && Upcoming(all, i) == FirstRecord(text, separator);
      TakeInOrder(all, i);
      hide InOrder, Upcoming, More, Placed;
      Regrouped(last, [FirstRecord(text, separator)], Records(Beyond(text, separator), separator));
    } else {
      assert Records("", separator) == [];
    }
  }

  /** Any requests in any order get the answers their run over the records gives; NR counts all
      records delivered, and FNR those of the file opened last. */
  method Serve(files: seq<string>, separator: char, requests: seq<Request>)
    returns (answers: seq<Option<string>>, nr: nat, fnr: nat)
    ensures
      var all := AllRecords(files, separator);
      && answers == Answers(all, BEGIN, requests)
      && nr == |Delivered(answers)|
      && fnr == LastCount(After(all, BEGIN, requests).taken)
  {
    hide Records, Flat, InOrder, NextRecord, Delivered;
    var r := new Reader(files, separator);
    ghost var all := r.All();
    answers := [];
    assert requests[0..] == requests;
    for k := 0 to |requests|
      invariant r.Valid() && fresh(r) && fresh(r.buffer) && r.files == files && r.separator == separator
      invariant answers + Answers(all, r.Now(), requests[k..]) == Answers(all, BEGIN, requests)
      invariant After(all, r.Now(), requests[k..]) == After(all, BEGIN, requests)
    {
      assert requests[k..][0] == requests[k] && requests[k..][1..] == requests[k + 1..];
      if requests[k].Skip? {
        r.NextFile();
      } else {
        var record := r.ReadMainLine();
        answers := answers + [record];
      }
    }
    InOrderAtFirst(all);
    DeliveredInOrder(all, BEGIN, requests);
    FlatNothing();
    nr, fnr := r.nr, r.fnr;
  }

  lemma FlatNothing()
    ensures Flat([]) == []
  {
  }
}

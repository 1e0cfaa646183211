/** The table of scalar variables with its cache: a number asked for as text keeps the text, made
    with the CONVFMT of the moment, until the number or CONVFMT changes. */
module ScalarTable {
  import opened Options
  import opened Syntax

  datatype Value = Unset | Num(number: Double) | Str(text: string)

  /** One entry; `cached` is the text kept with a number. */
  datatype Scalar = Scalar(name: string, value: Value, cached: Option<string>)

  const CONVFMT := "CONVFMT"
  const DEFAULT_FORMAT := "%.6g"

  /** How numbers are written out, given a format. */
  type Renderer = (string, Double) -> string

  // ----- The variables without the cache -----

  function ValueOf(entries: seq<Scalar>, name: string): Value {
    if entries == [] then Unset
    else if entries[0].name == name then entries[0].value
    else ValueOf(entries[1..], name)
  }

  /** Anything but a text in CONVFMT, or an empty one, stands for the default. */
  function FormatIn(convfmt: Value): string {
    if convfmt.Str? && convfmt.text != "" then convfmt.text else DEFAULT_FORMAT
  }

  /** A variable as text, made afresh. */
  function TextOf(render: Renderer, value: Value, convfmt: Value): string {
    match value
    case Unset => ""
    case Num(v) => render(FormatIn(convfmt), v)
    case Str(t) => t
  }

  type Variables = string -> Value

  datatype Op = SetString(name: string, text: string) | SetNumber(name: string, number: Double)
    | CopyFrom(name: string, source: string) | GetText(name: string)

  function Apply(vars: Variables, op: Op): Variables {
    match op
    case SetString(name, text) => With(vars, name, Str(text))
    case SetNumber(name, number) => With(vars, name, Num(number))
    case CopyFrom(name, source) => With(vars, name, vars(source))
    case GetText(_) => vars
  }

  function With(vars: Variables, name: string, value: Value): Variables {
    n => if n == name then value else vars(n)
  }

  /** What a run of operations reads, with no cache at all. */
  function Texts(render: Renderer, vars: Variables, ops: seq<Op>): seq<string> {
    if ops == [] then [] else Shown(render, vars, ops[0]) + Texts(render, Apply(vars, ops[0]), ops[1..])
  }

  function Shown(render: Renderer, vars: Variables, op: Op): seq<string> {
    if op.GetText? then [TextOf(render, vars(op.name), vars(CONVFMT))] else []
  }

  // ----- The variables with the cache -----

  /** The variables, and the texts kept with numbers. */
  datatype State = State(vars: Variables, kept: string -> Option<string>)

  const EMPTY := State(_ => Unset, _ => None)

  /** A number's text is the one kept, if there is one. */
  function Read(render: Renderer, s: State, name: string): string {
    if s.vars(name).Num? && s.kept(name).Some? then s.kept(name).value
      else TextOf(render, s.vars(name), s.vars(CONVFMT))
  }

  /** A new value has no text yet; a new CONVFMT takes every text away. */
  function Assigned(s: State, name: string, value: Value): State {
    State(With(s.vars, name, value), n => if n == name || name == CONVFMT then None else s.kept(n))
  }

  /** A variable without a value: the other texts stay, whatever its name. */
  function Cleared(s: State, name: string): State {
    State(With(s.vars, name, Unset), n => if n == name then None else s.kept(n))
  }

  function Step(render: Renderer, s: State, op: Op): State {
    match op
    case SetString(name, text) => Assigned(s, name, Str(text))
    case SetNumber(name, number) => Assigned(s, name, Num(number))
    case CopyFrom(name, source) => if s.vars(source).Unset? then Cleared(s, name) else Assigned(s, name, s.vars(source))
    case GetText(name) =>
      if s.vars(name).Num? then s.(kept := n => if n == name then Some(Read(render, s, name)) else s.kept(n)) else s
  }

  function After(render: Renderer, s: State, ops: seq<Op>): State
    decreases ops
  {
    if ops == [] then s else After(render, Step(render, s, ops[0]), ops[1..])
  }

  /** What a run of operations reads, with the cache. */
  function CachedTexts(render: Renderer, s: State, ops: seq<Op>): seq<string>
    decreases ops
  {
    if ops == [] then []
    else (if ops[0].GetText? then [Read(render, s, ops[0].name)]
          else []) + CachedTexts(render, Step(render, s, ops[0]), ops[1..])
  }

  /** Every text kept is what its number looks like in `format`. */
  ghost predicate KeptIn(render: Renderer, s: State, format: string) {
    forall n :: s.kept(n).Some? ==> s.vars(n).Num? && s.kept(n).value == render(format, s.vars(n).number)
  }

  /** The cache is right: every text kept is the one CONVFMT now gives. */
  ghost predicate Right(render: Renderer, s: State) {
    KeptIn(render, s, FormatIn(s.vars(CONVFMT)))
  }

  /** Copying an unset variable onto CONVFMT puts the default in force and drops no text. */
  predicate Clears(s: State, op: Op) {
    op.CopyFrom? && op.name == CONVFMT && s.vars(op.source).Unset?
  }

  /** That is harmless if every text kept is one the default gives as well. */
  ghost predicate Harmless(render: Renderer, s: State, op: Op) {
    Clears(s, op) ==> KeptIn(render, s, DEFAULT_FORMAT)
  }

  ghost predicate AllHarmless(render: Renderer, s: State, ops: seq<Op>)
    decreases ops
  {
    ops == [] || (Harmless(render, s, ops[0]) && AllHarmless(render, Step(render, s, ops[0]), ops[1..]))
  }

  /** An operation keeps the cache right exactly if it is harmless. */
  lemma StepRight(render: Renderer, s: State, op: Op)
    requires Right(render, s)
    ensures Right(render, Step(render, s, op)) <==> Harmless(render, s, op)
  {
    var later := Step(render, s, op);
    if Clears(s, op) {
      assert FormatIn(later.vars(CONVFMT)) == DEFAULT_FORMAT;
      forall n | n != CONVFMT
        ensures later.kept(n) == s.kept(n) && later.vars(n) == s.vars(n)
      {
      }
      assert s.kept(CONVFMT).Some? ==> FormatIn(s.vars(CONVFMT)) == DEFAULT_FORMAT;
    }
  }

  /** After CONVFMT has been cleared every variable reads as it should exactly if that was harmless. */
  lemma ClearedReads(render: Renderer, s: State, source: string)
    requires Right(render, s) && s.vars(source).Unset?
    ensures
      var op := CopyFrom(CONVFMT, source);
      var later := Step(render, s, op);
      Harmless(render, s, op) <==> forall n ::
        Read(render, later, n) == TextOf(render, later.vars(n), later.vars(CONVFMT))
  {
    var op := CopyFrom(CONVFMT, source);
    var later := Step(render, s, op);
    StepRight(render, s, op);
    forall n
      ensures Read(render, later, n) == TextOf(render, later.vars(n), later.vars(CONVFMT)) <==>
        (later.kept(n).Some? ==>
         later.vars(n).Num? && later.kept(n).value == render(DEFAULT_FORMAT, later.vars(n).number))
    {
      assert later.kept(n).Some? ==> n != CONVFMT && s.vars(n) == later.vars(n) && s.vars(n).Num?;
    }
  }

  /** Nothing has been read as text since CONVFMT was last given a value. */
  lemma NothingKept(render: Renderer, s: State, value: Value, ops: seq<Op>)
    requires forall op :: op in ops ==> !op.GetText?
    ensures forall n :: After(render, Assigned(s, CONVFMT, value), ops).kept(n).None?
  {
    StillNothingKept(render, Assigned(s, CONVFMT, value), ops);
  }

  lemma {:induction false} StillNothingKept(render: Renderer, s: State, ops: seq<Op>)
    requires (forall op :: op in ops ==> !op.GetText?) && forall n :: s.kept(n).None?
    ensures forall n :: After(render, s, ops).kept(n).None?
    decreases ops
  {
    if ops != [] {
      assert ops[0] in ops;
      StillNothingKept(render, Step(render, s, ops[0]), ops[1..]);
    }
  }

  /** So clearing CONVFMT is harmless where the default is in force anyway, and where nothing has
      been read as text since CONVFMT was given its value. */
  lemma ClearingIsHarmless(render: Renderer, s: State, source: string)
    requires Right(render, s)
    requires FormatIn(s.vars(CONVFMT)) == DEFAULT_FORMAT || forall n :: s.kept(n).None?
    ensures Harmless(render, s, CopyFrom(CONVFMT, source))
  {
  }

  /** Any run of harmless operations reads exactly the texts it would read with no cache. */
  lemma {:induction false} RunRight(render: Renderer, s: State, ops: seq<Op>)
    requires Right(render, s) && AllHarmless(render, s, ops)
    ensures CachedTexts(render, s, ops) == Texts(render, s.vars, ops) && Right(render, After(render, s, ops))
    decreases ops
  {
    if ops != [] {
      var later := Step(render, s, ops[0]);
      StepRight(render, s, ops[0]);
      RunRight(render, later, ops[1..]);
      SameTexts(render, later.vars, Apply(s.vars, ops[0]), ops[1..]);
    }
  }

  lemma {:induction false} SameTexts(render: Renderer, vars: Variables, same: Variables, ops: seq<Op>)
    requires forall n :: vars(n) == same(n)
    ensures Texts(render, vars, ops) == Texts(render, same, ops)
    decreases ops
  {
    if ops != [] { SameTexts(render, Apply(vars, ops[0]), Apply(same, ops[0]), ops[1..]); }
  }

  /** What a fresh table reads: a text as it is, nothing as nothing, and a number in the format that is in the
      variable CONVFMT, but for an empty one or a number there, or none at all. */
  lemma FreshTexts(render: Renderer, x: string, number: Double, text: string, format: string, other: Double)
    requires x != "CONVFMT"
    ensures CachedTexts(render, EMPTY, [GetText(x)]) == [""]
    ensures CachedTexts(render, EMPTY, [SetString(x, text), GetText(x)]) == [text]
    ensures CachedTexts(render, EMPTY, [SetNumber(x, number), GetText(x)]) == [render("%.6g", number)]
    ensures CachedTexts(render, EMPTY, [SetNumber("CONVFMT", other), SetNumber(x, number), GetText(x)])
      == [render("%.6g", number)]
    ensures CachedTexts(render, EMPTY, [SetString("CONVFMT", format), SetNumber(x, number), GetText(x)])
      == [if format == "" then render("%.6g", number) else render(format, number)]
  {
    hide CachedTexts, Texts, After;
    LastReads(render, EMPTY, x);
    LastReads(render, Step(render, EMPTY, SetString(x, text)), x);
    ThenReads(render, EMPTY, SetString(x, text), x);
    ThenReads(render, EMPTY, SetNumber(x, number), x);
    var byNumber, byText := SetNumber("CONVFMT", other), SetString("CONVFMT", format);
    TwiceReads(render, byNumber, SetNumber(x, number), x);
    TwiceReads(render, byText, SetNumber(x, number), x);
  }

  lemma LastReads(render: Renderer, s: State, x: string)
    ensures CachedTexts(render, s, [GetText(x)]) == [Read(render, s, x)]
  {
    hide Read, Step;
    StepTexts(render, s, GetText(x), []);
    NoTexts(render, Step(render, s, GetText(x)));
    assert [GetText(x)] + [] == [GetText(x)];
    assert [Read(render, s, x)] + [] == [Read(render, s, x)];
  }

  lemma ThenReads(render: Renderer, s: State, op: Op, x: string)
    requires !op.GetText?
    ensures CachedTexts(render, s, [op, GetText(x)]) == [Read(render, Step(render, s, op), x)]
  {
    hide Read, Step;
    StepTexts(render, s, op, [GetText(x)]);
    LastReads(render, Step(render, s, op), x);
    assert [op] + [GetText(x)] == [op, GetText(x)];
  }

  lemma TwiceReads(render: Renderer, op: Op, next: Op, x: string)
    requires !op.GetText? && !next.GetText?
    ensures CachedTexts(render, EMPTY, [op, next, GetText(x)])
      == [Read(render, Step(render, Step(render, EMPTY, op), next), x)]
  {
    hide Read, Step;
    StepTexts(render, EMPTY, op, [next, GetText(x)]);
    ThenReads(render, Step(render, EMPTY, op), next, x);
    assert [op] + [next, GetText(x)] == [op, next, GetText(x)];
  }

  /** Where it is not harmless: a number read under one format, and again after CONVFMT has been
      cleared, shows the first text twice. */
  lemma UnsetConvfmtLeavesStaleText(render: Renderer, format: string, x: string, number: Double, unset: string)
    requires format != "" && x != CONVFMT && unset != CONVFMT && unset != x
    ensures
      var ops := [SetString(CONVFMT, format), SetNumber(x, number), GetText(x), CopyFrom(CONVFMT, unset), GetText(x)];
      && CachedTexts(render, EMPTY, ops) == [render(format, number), render(format, number)]
      && Texts(render, EMPTY.vars, ops) == [render(format, number), render(DEFAULT_FORMAT, number)]
  {
    var a, b, c, d, e := SetString(CONVFMT, format), SetNumber(x, number), GetText(x),
        CopyFrom(CONVFMT, unset), GetText(x);
    var s1 := Step(render, EMPTY, a);
    var s2 := Step(render, s1, b);
    var s3 := Step(render, s2, c);
    var s4 := Step(render, s3, d);
    var s5 := Step(render, s4, e);
    ReadBeforeClearing(render, EMPTY, format, x, number);
    ReadAfterClearing(render, s3, format, x, number, unset);
    assert Shown(render, EMPTY.vars, a) == Shown(render, s1.vars, b) == Shown(render, s3.vars, d) == [];
    hide *;
    StepTexts(render, EMPTY, a, [b, c, d, e]);
    StepTexts(render, s1, b, [c, d, e]);
    StepTexts(render, s2, c, [d, e]);
    StepTexts(render, s3, d, [e]);
    StepTexts(render, s4, e, []);
    NoTexts(render, s5);
    OneByOne(a, b, c, d, e);
    TwoTexts(render(format, number), render(format, number));
    TwoTexts(render(format, number), render(DEFAULT_FORMAT, number));
  }

  lemma OneByOne(a: Op, b: Op, c: Op, d: Op, e: Op)
    ensures [a, b, c, d, e] == [a] + [b, c, d, e] && [b, c, d, e] == [b] + [c, d, e] && [c, d, e] == [c] + [d, e]
    ensures [d, e] == [d] + [e] && [e] == [e] + []
  {
  }

  lemma TwoTexts(p: string, q: string)
    ensures [] + ([] + ([p] + ([] + ([q] + [])))) == [p, q]
  {
  }

  lemma ReadBeforeClearing(render: Renderer, s: State, format: string, x: string, number: Double)
    requires format != "" && x != CONVFMT
    ensures
      var s2 := Step(render, Step(render, s, SetString(CONVFMT, format)), SetNumber(x, number));
      var s3 := Step(render, s2, GetText(x));
      && Read(render, s2, x) == render(format, number) && Shown(render, s2.vars, GetText(x)) == [render(format, number)]
      && s3.vars(x) == Num(number) && s3.kept(x) == Some(render(format, number))
      && forall n :: n != x && n != CONVFMT ==> s3.vars(n) == s.vars(n)
  {
  }

  lemma ReadAfterClearing(render: Renderer, s: State, format: string, x: string, number: Double, unset: string)
    requires x != CONVFMT && s.vars(x) == Num(number) && s.kept(x) == Some(render(format, number))
      && s.vars(unset).Unset?
    ensures
      var later := Step(render, s, CopyFrom(CONVFMT, unset));
      Read(render, later, x) == render(format, number)
        && Shown(render, later.vars, GetText(x)) == [render(DEFAULT_FORMAT, number)]
  {
  }

  /** A run by its first operation. */
  lemma StepTexts(render: Renderer, s: State, op: Op, more: seq<Op>)
    ensures CachedTexts(render, s, [op] + more) ==
      (if op.GetText? then [Read(render, s, op.name)] else []) + CachedTexts(render, Step(render, s, op), more)
    ensures Texts(render, s.vars, [op] + more) == Shown(render, s.vars, op)
      + Texts(render, Step(render, s, op).vars, more)
    ensures After(render, s, [op] + more) == After(render, Step(render, s, op), more)
  {
    assert ([op] + more)[1..] == more;
    SameTexts(render, Apply(s.vars, op), Step(render, s, op).vars, more);
  }

  lemma NoTexts(render: Renderer, s: State)
    ensures CachedTexts(render, s, []) == [] && Texts(render, s.vars, []) == [] && After(render, s, []) == s
  {
  }

  // ----- The table's entries -----

  function KeptOf(entries: seq<Scalar>, name: string): Option<string> {
    if entries == [] then None
    else if entries[0].name == name then (if entries[0].value.Num? then entries[0].cached else None)
    else KeptOf(entries[1..], name)
  }

  lemma {:induction false} EntryAt(entries: seq<Scalar>, i: nat)
    requires i < |entries| && forall j :: 0 <= j < i ==> entries[j].name != entries[i].name
    ensures ValueOf(entries, entries[i].name) == entries[i].value
    ensures KeptOf(entries, entries[i].name) == if entries[i].value.Num? then entries[i].cached else None
    decreases entries
  {
    if i > 0 {
      assert forall j :: 0 <= j < i - 1 ==> entries[1..][j].name == entries[j + 1].name;
      EntryAt(entries[1..], i - 1);
    }
  }

  lemma {:induction false} NoEntry(entries: seq<Scalar>, name: string)
    requires forall e :: e in entries ==> e.name != name
    ensures ValueOf(entries, name) == Unset && KeptOf(entries, name) == None
  {
    if entries != [] { NoEntry(entries[1..], name); }
  }

  /** One entry changed in place, the first of its name. */
  lemma {:induction false} EntryChanged(entries: seq<Scalar>, i: nat, e: Scalar, name: string)
    requires i < |entries| && e.name == entries[i].name && forall j :: 0 <= j < i ==> entries[j].name != e.name
    ensures ValueOf(entries[i := e], name) == if name == e.name then e.value else ValueOf(entries, name)
    ensures KeptOf(entries[i := e], name) == if name != e.name then KeptOf(entries, name)
      else if e.value.Num? then e.cached else None
    decreases entries
  {
    var later := entries[i := e];
    if i > 0 {
      assert later[1..] == entries[1..][i - 1 := e];
      assert forall j :: 0 <= j < i - 1 ==> entries[1..][j].name == entries[j + 1].name;
      EntryChanged(entries[1..], i - 1, e, name);
    } else {
      assert later[1..] == entries[1..];
    }
  }

  lemma {:induction false} Dropped(entries: seq<Scalar>, later: seq<Scalar>, name: string)
    requires |later| == |entries|
    requires forall i :: 0 <= i < |entries| ==> later[i] == if entries[i].value.Num? then entries[i].(cached := None)
      else entries[i]
    ensures ValueOf(later, name) == ValueOf(entries, name) && KeptOf(later, name) == None
    decreases entries
  {
    if entries != [] { Dropped(entries[1..], later[1..], name); }
  }

  ghost predicate Holds(entries: seq<Scalar>, s: State) {
    forall n :: ValueOf(entries, n) == s.vars(n) && KeptOf(entries, n) == s.kept(n)
  }

  class Table {
    const render: Renderer
    var entries: seq<Scalar>

    constructor (render: Renderer)
      ensures this.render == render && Holds(entries, EMPTY)
    {
      this.render := render;
      entries := [];
    }

    /** Where `name` is in the list, if it is there. */
    method Find(name: string) returns (at: nat)
      ensures at <= |entries| && forall j :: 0 <= j < at ==> entries[j].name != name
      ensures at < |entries| ==>
        && entries[at].name == name && ValueOf(entries, name) == entries[at].value
        && KeptOf(entries, name) == if entries[at].value.Num? then entries[at].cached else None
      ensures at == |entries| ==> ValueOf(entries, name) == Unset && KeptOf(entries, name) == None
    {
      at := 0;
      while at < |entries|
        invariant at <= |entries| && forall j :: 0 <= j < at ==> entries[j].name != name
      {
        if entries[at].name == name {
          EntryAt(entries, at);
          return;
        }
        at := at + 1;
      }
      NoEntry(entries, name);
    }

    /** The entry of `name`, put in front if it is new, takes the value; its old text is dropped. */
    method Put(name: string, value: Value, ghost s: State)
      requires Holds(entries, s)
      modifies this
      ensures Holds(entries, State(With(s.vars, name, value), n => if n == name then None else s.kept(n)))
    {
      var at := Find(name);
      var entry := Scalar(name, value, None);
      if at < |entries| {
        forall n
          ensures ValueOf(entries[at := entry], n) == if n == name then value else ValueOf(entries, n)
          ensures KeptOf(entries[at := entry], n) == if n == name then None else KeptOf(entries, n)
        {
          EntryChanged(entries, at, entry, n);
        }
        entries := entries[at := entry];
      } else {
        ghost var before := entries;
        entries := [entry] + entries;
        assert entries[1..] == before;
      }
    }

    /** Drop the text kept with every number. */
    method InvalidateCache(ghost s: State)
      requires Holds(entries, s)
      modifies this
      ensures Holds(entries, s.(kept := _ => None))
    {
      ghost var before := entries;
      for i := 0 to |entries|
        invariant |entries| == |before|
        invariant forall j :: 0 <= j < i ==> entries[j] == if before[j].value.Num? then before[j].(cached := None)
          else before[j]
        invariant forall j :: i <= j < |entries| ==> entries[j] == before[j]
      {
        if entries[i].value.Num? {
          entries := entries[i := entries[i].(cached := None)];
        }
      }
      forall n
        ensures ValueOf(entries, n) == ValueOf(before, n) && KeptOf(entries, n) == None
      {
        Dropped(before, entries, n);
      }
    }

    method SetStringValue(name: string, text: string, ghost s: State)
      requires Holds(entries, s)
      modifies this
      ensures Holds(entries, Assigned(s, name, Str(text)))
    {
      hide ValueOf, KeptOf;
      Put(name, Str(text), s);
      if name == CONVFMT {
        InvalidateCache(Cleared(s, name).(vars := With(s.vars, name, Str(text))));
      }
    }

    method SetNumberValue(name: string, number: Double, ghost s: State)
      requires Holds(entries, s)
      modifies this
      ensures Holds(entries, Assigned(s, name, Num(number)))
    {
      hide ValueOf, KeptOf;
      Put(name, Num(number), s);
      if name == CONVFMT {
        InvalidateCache(Cleared(s, name).(vars := With(s.vars, name, Num(number))));
      }
    }

    /** An unset source only clears the target: texts kept with numbers are not dropped. */
    method Copy(name: string, source: string, ghost s: State)
      requires Holds(entries, s)
      modifies this
      ensures Holds(entries, Step(render, s, CopyFrom(name, source)))
    {
      hide ValueOf, KeptOf;
      var at := Find(source);
      var value := if at < |entries| then entries[at].value else Unset;
      match value {
        case Unset => Put(name, Unset, s);
        case Num(v) => SetNumberValue(name, v, s);
        case Str(t) => SetStringValue(name, t, s);
      }
    }

    /** A variable as text. A number is written out once, and its text kept. */
    method Get(name: string, ghost s: State) returns (text: string)
      requires Holds(entries, s)
      modifies this
      ensures text == Read(render, s, name) && Holds(entries, Step(render, s, GetText(name)))
    {
      hide ValueOf, KeptOf;
      var at := Find(name);
      if at == |entries| || entries[at].value.Unset? {
        return "";
      }
      if entries[at].value.Str? {
        return entries[at].value.text;
      }
      if entries[at].cached.Some? {
        return entries[at].cached.value;
      }
      var f := Find(CONVFMT);
      var convfmt := if f < |entries| then entries[f].value else Unset;
      text := render(FormatIn(convfmt), entries[at].value.number);
      ghost var entry := entries[at].(cached := Some(text));
      forall n
        ensures ValueOf(entries[at := entry], n) == ValueOf(entries, n)
        ensures KeptOf(entries[at := entry], n) == if n == name then Some(text) else KeptOf(entries, n)
      {
        EntryChanged(entries, at, entry, n);
      }
      entries := entries[at := entries[at].(cached := Some(text))];
    }

    /** Any run of operations reads what the variables with their cache say. */
    method Perform(ops: seq<Op>, ghost s: State) returns (texts: seq<string>)
      requires Holds(entries, s)
      modifies this
      ensures Holds(entries, After(render, s, ops)) && texts == CachedTexts(render, s, ops)
    {
      hide *;
      texts := [];
      ghost var now := s;
      assert ops[0..] == ops;
      for i := 0 to |ops|
        invariant Holds(entries, now) && After(render, now, ops[i..]) == After(render, s, ops)
        invariant texts + CachedTexts(render, now, ops[i..]) == CachedTexts(render, s, ops)
      {
        assert ops[i..] == [ops[i]] + ops[i + 1..];
        StepTexts(render, now, ops[i], ops[i + 1..]);
        var more := PerformOne(ops[i], now);
        texts := texts + more;
        now := Step(render, now, ops[i]);
      }
      NoTexts(render, now);
    }

    method PerformOne(op: Op, ghost s: State) returns (texts: seq<string>)
      requires Holds(entries, s)
      modifies this
      ensures Holds(entries, Step(render, s, op)) && texts == if op.GetText? then [Read(render, s, op.name)] else []
    {
      hide ValueOf, KeptOf, Holds;
      texts := [];
      match op {
        case SetString(name, text) => SetStringValue(name, text, s);
        case SetNumber(name, number) => SetNumberValue(name, number, s);
        case CopyFrom(name, source) => Copy(name, source, s);
        case GetText(name) =>
          var text := Get(name, s);
          texts := [text];
      }
    }
  }
}

/** Texts that end in a NUL inside a buffer of characters, and the string operations the
    runtime uses on them. */
module CStrings {
  import opened Options

  const NUL := '\0'

  predicate NoNul(s: string) {
    NUL !in s
  }

  /** What a C string can hold. */
  type Text = s: string | NoNul(s)

  /** The text that starts at a position of a buffer. */
  function TextAt(buffer: seq<char>, i: nat): (t: Text)
    ensures i <= |buffer| ==> i + |t| <= |buffer| && buffer[i..i + |t|] == t
    decreases |buffer| - i
  {
    if i >= |buffer| || buffer[i] == NUL then "" else [buffer[i]] + TextAt(buffer, i + 1)
  }

  /** The text ends inside the buffer. */
  predicate Terminated(buffer: seq<char>, i: nat) {
    i < |buffer| && i + |TextAt(buffer, i)| < |buffer|
  }

  lemma EndsInside(buffer: seq<char>, i: nat)
    requires Terminated(buffer, i)
    ensures i + |TextAt(buffer, i)| < |buffer|
  {
  }

  lemma {:induction false} EndsInNul(buffer: seq<char>, i: nat)
    requires Terminated(buffer, i)
    ensures buffer[i + |TextAt(buffer, i)|] == NUL
    decreases |buffer| - i
  {
    if buffer[i] != NUL { EndsInNul(buffer, i + 1); }
  }

  /** Characters in place, with a NUL after them, are the text. */
  lemma {:induction false} TextIs(buffer: seq<char>, i: nat, t: Text)
    requires i + |t| < |buffer| && buffer[i..i + |t|] == t && buffer[i + |t|] == NUL
    ensures TextAt(buffer, i) == t && Terminated(buffer, i)
    decreases |t|
  {
    if t != "" {
      assert buffer[i] == t[0];
      assert buffer[i + 1..i + |t|] == t[1..];
      TextIs(buffer, i + 1, t[1..]);
    }
  }

  /** A text does not change with what lies outside it. */
  lemma TextKept(buffer: seq<char>, later: seq<char>, i: nat)
    requires Terminated(buffer, i) && |buffer| == |later|
    requires forall j :: i <= j <= i + |TextAt(buffer, i)| ==> later[j] == buffer[j]
    ensures TextAt(later, i) == TextAt(buffer, i) && Terminated(later, i)
  {
    var t := TextAt(buffer, i);
    EndsInNul(buffer, i);
    assert later[i..i + |t|] == t;
    TextIs(later, i, t);
  }

  /** A later start inside a text. */
  lemma {:induction false} TextFrom(buffer: seq<char>, i: nat, n: nat)
    requires Terminated(buffer, i) && n <= |TextAt(buffer, i)|
    ensures TextAt(buffer, i + n) == TextAt(buffer, i)[n..] && Terminated(buffer, i + n)
  {
    var t := TextAt(buffer, i);
    EndsInNul(buffer, i);
    assert buffer[i + n..i + |t|] == t[n..];
    TextIs(buffer, i + n, t[n..]);
  }

  /** Inside a text the buffer has its characters, and a NUL at its end. */
  lemma CharacterOf(buffer: seq<char>, i: nat, n: nat)
    requires Terminated(buffer, i) && n <= |TextAt(buffer, i)|
    ensures buffer[i + n] == NUL <==> n == |TextAt(buffer, i)|
    ensures n < |TextAt(buffer, i)| ==> buffer[i + n] == TextAt(buffer, i)[n]
  {
    hide TextAt;
    var t := TextAt(buffer, i);
    EndsInNul(buffer, i);
    if n < |t| {
      assert buffer[i + n] == buffer[i..i + |t|][n];
      assert t[n] in t;
    }
  }

  // ----- Searching -----

  /** `s` has `sub` at position `i`. */
  predicate HasAt(s: string, sub: string, i: nat) {
    i + |sub| <= |s| && s[i..i + |sub|] == sub
  }

  /** The first place `sub` occurs in `s`. */
  function FindSub(s: string, sub: string): (r: Option<nat>)
    ensures r.Some? ==> HasAt(s, sub, r.value) && forall i :: 0 <= i < r.value ==> !HasAt(s, sub, i)
    ensures r.None? ==> forall i :: 0 <= i <= |s| ==> !HasAt(s, sub, i)
  {
    if HasAt(s, sub, 0) then Some(0)
    else if s == "" then None
    else
      var r := FindSub(s[1..], sub);
      ShiftedFind(s, sub, r);
      if r.None? then None else Some(r.value + 1)
  }

  lemma ShiftedFind(s: string, sub: string, r: Option<nat>)
    requires s != "" && !HasAt(s, sub, 0)
    requires r.Some? ==> HasAt(s[1..], sub, r.value) && forall i :: 0 <= i < r.value ==> !HasAt(s[1..], sub, i)
    requires r.None? ==> forall i :: 0 <= i < |s| ==> !HasAt(s[1..], sub, i)
    ensures r.Some? ==> HasAt(s, sub, r.value + 1) && forall i :: 0 <= i < r.value + 1 ==> !HasAt(s, sub, i)
    ensures r.None? ==> forall i :: 0 <= i <= |s| ==> !HasAt(s, sub, i)
  {
    forall i | 0 < i <= |s|
      ensures HasAt(s, sub, i) <==> HasAt(s[1..], sub, i - 1)
    {
      HasAtNext(s, sub, i - 1);
    }
  }

  lemma HasAtNext(s: string, sub: string, i: nat)
    requires s != ""
    ensures HasAt(s, sub, i + 1) <==> HasAt(s[1..], sub, i)
  {
    if i + 1 + |sub| <= |s| { assert s[i + 1..i + 1 + |sub|] == s[1..][i..i + |sub|]; }
  }

  lemma HasCharacter(s: string, c: char, i: nat)
    ensures HasAt(s, [c], i) <==> i < |s| && s[i] == c
  {
    if i < |s| { assert s[i..i + 1] == [s[i]]; }
  }

  // ----- Joining -----

  function Join(parts: seq<string>, separator: string): string {
    if parts == [] then ""
    else if |parts| == 1 then parts[0]
    else parts[0] + separator + Join(parts[1..], separator)
  }

  lemma {:induction false} JoinLast(parts: seq<string>, last: string, separator: string)
    requires parts != []
    ensures Join(parts + [last], separator) == Join(parts, separator) + separator + last
    decreases parts
  {
    if |parts| == 1 {
      assert (parts + [last])[1..] == [last];
    } else {
      assert (parts + [last])[1..] == parts[1..] + [last];
      JoinLast(parts[1..], last, separator);
    }
  }
}

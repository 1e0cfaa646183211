/** Texts in pieces: parts with something in between, and what a digit is. */
module Texts {
  predicate IsDigit(c: char) {
    '0' <= c <= '9'
  }

  /** Parts with a gap before each and one after the last. */
  function Woven(gaps: seq<string>, parts: seq<string>): string
    requires |gaps| == |parts| + 1
  {
    if parts == [] then gaps[0] else gaps[0] + parts[0] + Woven(gaps[1..], parts[1..])
  }

  lemma WovenNone(gap: string)
    ensures Woven([gap], []) == gap
  {
  }

  lemma WovenStart(gap: string, gaps: seq<string>, part: string, parts: seq<string>)
    requires |gaps| == |parts| + 1
    ensures Woven([gap] + gaps, [part] + parts) == gap + part + Woven(gaps, parts)
  {
    assert ([gap] + gaps)[1..] == gaps && ([part] + parts)[1..] == parts;
  }

  lemma WovenBegins(gaps: seq<string>, parts: seq<string>)
    requires |gaps| == |parts| + 1
    ensures gaps[0] <= Woven(gaps, parts)
  {
  }

  /** A longer first gap. */
  lemma WovenMore(piece: string, gap: string, gaps: seq<string>, parts: seq<string>)
    requires |gaps| == |parts|
    ensures Woven([piece + gap] + gaps, parts) == piece + Woven([gap] + gaps, parts)
  {
    assert ([piece + gap] + gaps)[1..] == gaps == ([gap] + gaps)[1..];
    if parts != [] { Regroup(piece, gap, parts[0], Woven(gaps, parts[1..])); }
  }

  lemma Regroup(a: string, b: string, c: string, d: string)
    ensures (a + b) + c + d == a + (b + c + d)
  {
  }
}

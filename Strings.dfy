/**
 * Substring search as both languages of the repository use it: JavaScript's
 * `String.prototype.indexOf` and Ruby's `String#include?`. Both compare
 * characters exactly (case-sensitive, no normalisation).
 */
module Strings {

  /** `needle` occurs in `hay` starting at position `i`. */
  predicate OccursAt(needle: string, hay: string, i: int)
  {
    0 <= i && i + |needle| <= |hay| && hay[i..i + |needle|] == needle
  }

  /** `needle` occurs somewhere in `hay` (the empty string occurs everywhere). */
  ghost predicate Occurs(needle: string, hay: string)
  {
    exists i :: OccursAt(needle, hay, i)
  }

  /**
   * `hay.indexOf(needle, from)`: the first position at or after `from` where
   * `needle` occurs, or -1 when there is none. Positions count characters
   * (JavaScript counts UTF-16 code units; the code only compares with -1).
   */
  function IndexFrom(hay: string, needle: string, from: nat): (r: int)
    ensures r == -1 || (from <= r && OccursAt(needle, hay, r))
    ensures r == -1 ==> forall i :: from <= i ==> !OccursAt(needle, hay, i)
    ensures r != -1 ==> forall i :: from <= i < r ==> !OccursAt(needle, hay, i)
    decreases |hay| - from
  {
    if from + |needle| > |hay| then -1
    else if hay[from..from + |needle|] == needle then from
    else IndexFrom(hay, needle, from + 1)
  }

  /** `hay.indexOf(needle)`: the first occurrence of `needle` in `hay`, or -1. */
  function IndexOf(hay: string, needle: string): (r: int)
    ensures r == -1 || OccursAt(needle, hay, r)
    ensures r > -1 <==> Occurs(needle, hay)
    ensures forall i :: 0 <= i < r ==> !OccursAt(needle, hay, i)
  {
    IndexFrom(hay, needle, 0)
  }

  /** `hay.include?(needle)` (Ruby), equivalently `hay.indexOf(needle) > -1`. */
  function Includes(hay: string, needle: string): (b: bool)
    ensures b <==> Occurs(needle, hay)
  {
    IndexOf(hay, needle) > -1
  }
}

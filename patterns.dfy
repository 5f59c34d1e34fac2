/** The pieces of JavaScript regular expressions that the password validators use,
    as matchers over strings (a `char` stands for one UTF-16 code unit). Each matcher
    scans the way a backtracking engine does and is specified by the plain meaning
    of the pattern. */
module Patterns {

  /** A bracket class such as `[A-Za-z\d@$!%*#?&]`, or `.` (which, without the `s`
      flag, refuses the four line terminators). */
  datatype CharClass =
    | Digit
    | Upper
    | Lower
    | Dot
    | AnyOf(chars: string)
    | Either(left: CharClass, right: CharClass)

  predicate IsLineTerminator(c: char) {
    c == '\n' || c == '\r' || c == '\U{2028}' || c == '\U{2029}'
  }

  predicate InClass(c: char, k: CharClass) {
    match k
    case Digit => '0' <= c <= '9'
    case Upper => 'A' <= c <= 'Z'
    case Lower => 'a' <= c <= 'z'
    case Dot => !IsLineTerminator(c)
    case AnyOf(cs) => c in cs
    case Either(l, r) => InClass(c, l) || InClass(c, r)
  }

  /** `[A-Za-z]` */
  const Letter := Either(Upper, Lower)

  /** Some code unit of `s` is in class `k`. */
  ghost predicate Has(s: string, k: CharClass) {
    exists i :: 0 <= i < |s| && InClass(s[i], k)
  }

  /** Every code unit of `s` is in class `k`. */
  ghost predicate AllIn(s: string, k: CharClass) {
    forall i :: 0 <= i < |s| ==> InClass(s[i], k)
  }

  /** `/k/.test(s)`: an unanchored search for one code unit of class `k`. */
  function Search(s: string, k: CharClass): (b: bool)
    ensures b <==> Has(s, k)
  {
    if s == [] then false
    else if InClass(s[0], k) then true
    else
      var b := Search(s[1..], k);
      assert forall i :: 1 <= i < |s| ==> s[i] == s[1..][i - 1];
      b
  }

  /** The lookahead `(?=.*k)` tried at the start of `s`: `.*` may not cross a line
      terminator, so it succeeds exactly when a code unit of class `k` occurs before
      the first line terminator. */
  function LookaheadDotStar(s: string, k: CharClass): (b: bool)
    ensures b <==> exists i :: 0 <= i < |s| && InClass(s[i], k) && AllIn(s[..i], Dot)
  {
    if s == [] then false
    else if InClass(s[0], k) then
      assert AllIn(s[..0], Dot);
      true
    else if IsLineTerminator(s[0]) then
      assert forall i :: 0 < i < |s| ==> s[..i][0] == s[0];
      false
    else
      var b := LookaheadDotStar(s[1..], k);
      LookaheadStep(s, k);
      b
  }

  /** One step of the lookahead scan: past a leading code unit that is neither in
      `k` nor a line terminator, a match of `s` is a match of `s[1..]` shifted by one. */
  lemma LookaheadStep(s: string, k: CharClass)
    requires s != [] && !InClass(s[0], k) && !IsLineTerminator(s[0])
    ensures (exists i :: 0 <= i < |s| && InClass(s[i], k) && AllIn(s[..i], Dot))
        <==> (exists i :: 0 <= i < |s| - 1 && InClass(s[1..][i], k) && AllIn(s[1..][..i], Dot))
  {
    assert forall i :: 0 <= i < |s| - 1 ==> s[1..][..i] == s[1..i + 1];
    if i :| 0 <= i < |s| - 1 && InClass(s[1..][i], k) && AllIn(s[1..][..i], Dot) {
      assert InClass(s[i + 1], k) && AllIn(s[..i + 1], Dot);
    }
    if i :| 0 <= i < |s| && InClass(s[i], k) && AllIn(s[..i], Dot) {
      assert i > 0;
      assert AllIn(s[1..][..i - 1], Dot);
    }
  }

  /** `k{min,}$` matched from the start of `s`: the rest of the string is at least
      `min` code units, all of class `k`. */
  function RunToEnd(s: string, k: CharClass, min: nat): (b: bool)
    ensures b <==> |s| >= min && AllIn(s, k)
  {
    if s == [] then min == 0
    else
      var b := InClass(s[0], k) && RunToEnd(s[1..], k, if min == 0 then 0 else min - 1);
      assert forall i :: 1 <= i < |s| ==> s[i] == s[1..][i - 1];
      b
  }

  /** When no code unit of `s` is a line terminator, the lookahead `(?=.*k)` is the
      same test as an unanchored search for `k`. */
  lemma LookaheadIsSearch(s: string, k: CharClass)
    requires AllIn(s, Dot)
    ensures LookaheadDotStar(s, k) == Search(s, k)
  {
    if Search(s, k) {
      var i :| 0 <= i < |s| && InClass(s[i], k);
      assert AllIn(s[..i], Dot);
    }
  }
}

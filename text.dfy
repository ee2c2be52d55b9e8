/** String operations used by the selection heuristic and the client configuration. */
module Text {
  import opened Wrappers

  /** `toLowerCase` on one character, for the Latin letters A to Z. */
  function LowerChar(c: char): char
  {
    if 'A' <= c <= 'Z' then (c as int + 32) as char else c
  }

  function ToLower(s: string): (r: string)
    ensures |r| == |s|
    ensures forall i :: 0 <= i < |s| ==> r[i] == LowerChar(s[i])
  {
    if |s| == 0 then [] else [LowerChar(s[0])] + ToLower(s[1..])
  }

  predicate IsPrefix(p: string, s: string)
  {
    |p| <= |s| && s[..|p|] == p
  }

  /** `s.includes(sub)`: `sub` occurs somewhere in `s` (the empty string occurs everywhere). */
  predicate Contains(s: string, sub: string)
    decreases |s|
  {
    IsPrefix(sub, s) || (|s| > 0 && Contains(s[1..], sub))
  }

  /** Index of the first occurrence of `c` in `s`, if any. */
  function IndexOf(s: string, c: char): (r: Option<nat>)
    ensures r.Some? ==> r.value < |s| && s[r.value] == c && c !in s[..r.value]
    ensures r.None? ==> c !in s
  {
    if |s| == 0 then None
    else if s[0] == c then Some(0)
    else match IndexOf(s[1..], c)
      case None => None
      case Some(i) => Some(i + 1)
  }

  /** The text of `s` before the first `c`, or all of `s` when there is none. */
  function Before(s: string, c: char): (r: string)
  {
    match IndexOf(s, c)
    case None => s
    case Some(i) => s[..i]
  }

  /** `s.split(c)[1]`: the second field, or `None` (undefined) when `s` has no `c`. */
  function SecondField(s: string, c: char): (r: Option<string>)
  {
    match IndexOf(s, c)
    case None => None
    case Some(i) => Some(Before(s[i + 1..], c))
  }

  /** Splitting `a + [c] + b` where neither part holds `c` gives `b` as the second field. */
  lemma SecondFieldOfJoin(a: string, c: char, b: string)
    requires c !in a && c !in b
    ensures SecondField(a + [c] + b, c) == Some(b)
  {
    var s := a + [c] + b;
    var i := IndexOf(s, c);
    assert s[..|a|] == a;
    assert s[|a|] == c;
    assert s[|a| + 1..] == b;
  }
}

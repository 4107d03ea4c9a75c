/** JavaScript's string operations, as the page script uses them. */
module JsString {

  /** An index argument of `substring` clamped into [0, n]. */
  function Clamp(i: int, n: nat): (r: nat)
    ensures r <= n
    ensures 0 <= i <= n ==> r == i
  {
    if i < 0 then 0 else if i > n then n else i
  }

  /** `s.substring(start, end)`: both arguments are clamped to [0, |s|], and
      they are swapped when the first exceeds the second. */
  function Substring(s: string, start: int, end: int): (r: string)
    ensures 0 <= start <= end <= |s| ==> r == s[start..end]
    ensures |r| <= |s|
  {
    var a, b := Clamp(start, |s|), Clamp(end, |s|);
    if a <= b then s[a..b] else s[b..a]
  }

  /** `s.substring(start)`: from `start` to the end of the string. */
  function SubstringFrom(s: string, start: int): (r: string)
    ensures 0 <= start <= |s| ==> r == s[start..]
  {
    Substring(s, start, |s|)
  }

  /** `s.charAt(i)`: the one-character string at `i`, or "" out of range. */
  function CharAt(s: string, i: int): (r: string)
    ensures |r| <= 1
  {
    if 0 <= i < |s| then [s[i]] else ""
  }
}

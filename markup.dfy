/** The only markup the typewriter writes is one `<strong>` pair. This module
    reads such markup back: the text a reader sees and the tags it holds. */
module Markup {

  const OpenStrong: string := "<strong>"
  const CloseStrong: string := "</strong>"

  datatype Tag = Open | Close

  /** Text with no '<' in it: the browser shows it as written. */
  predicate Plain(s: string) {
    forall i | 0 <= i < |s| :: s[i] != '<'
  }

  predicate StartsWith(s: string, p: string) {
    |p| <= |s| && s[..|p|] == p
  }

  /** The text of `s` with every `<strong>` and `</strong>` removed. */
  function Strip(s: string): (r: string)
    decreases |s|
  {
    if s == [] then []
    else if StartsWith(s, OpenStrong) then Strip(s[|OpenStrong|..])
    else if StartsWith(s, CloseStrong) then Strip(s[|CloseStrong|..])
    else [s[0]] + Strip(s[1..])
  }

  /** The `<strong>` and `</strong>` tags of `s`, in order. */
  function Tags(s: string): (r: seq<Tag>)
    decreases |s|
  {
    if s == [] then []
    else if StartsWith(s, OpenStrong) then [Open] + Tags(s[|OpenStrong|..])
    else if StartsWith(s, CloseStrong) then [Close] + Tags(s[|CloseStrong|..])
    else Tags(s[1..])
  }

  /** Plain text in front of markup is shown unchanged and adds no tag. */
  lemma {:induction false} PlainThen(t: string, u: string)
    requires Plain(t)
    ensures Strip(t + u) == t + Strip(u)
    ensures Tags(t + u) == Tags(u)
  {
    if t == [] {
      assert t + u == u;
    } else {
      var s := t + u;
      assert s[0] == t[0] != '<';
      assert !StartsWith(s, OpenStrong) by { assert OpenStrong[0] == '<'; }
      assert !StartsWith(s, CloseStrong) by { assert CloseStrong[0] == '<'; }
      assert s[1..] == t[1..] + u;
      PlainThen(t[1..], u);
    }
  }

  /** Plain text is its own visible text and holds no tag. */
  lemma PlainText(t: string)
    requires Plain(t)
    ensures Strip(t) == t && Tags(t) == []
  {
    PlainThen(t, []);
    assert t + [] == t;
  }

  /** An opening tag is invisible and is read as one `Open`. */
  lemma OpenThen(u: string)
    ensures Strip(OpenStrong + u) == Strip(u)
    ensures Tags(OpenStrong + u) == [Open] + Tags(u)
  {
    var s := OpenStrong + u;
    assert s[..|OpenStrong|] == OpenStrong;
    assert s[|OpenStrong|..] == u;
  }

  /** A closing tag is invisible and is read as one `Close`. */
  lemma CloseThen(u: string)
    ensures Strip(CloseStrong + u) == Strip(u)
    ensures Tags(CloseStrong + u) == [Close] + Tags(u)
  {
    var s := CloseStrong + u;
    assert s[..|CloseStrong|] == CloseStrong;
    assert !StartsWith(s, OpenStrong) by { assert s[1] == '/' != OpenStrong[1]; }
    assert s[|CloseStrong|..] == u;
  }

  /** Text wrapped in one `<strong>` pair between two plain pieces: the
      reader sees the three pieces joined, and the tags are one balanced pair. */
  lemma Wrapped(p: string, m: string, q: string)
    requires Plain(p) && Plain(m) && Plain(q)
    ensures Strip(p + OpenStrong + m + CloseStrong + q) == p + m + q
    ensures Tags(p + OpenStrong + m + CloseStrong + q) == [Open, Close]
  {
    assert p + OpenStrong + m + CloseStrong + q == p + (OpenStrong + (m + (CloseStrong + q)));
    PlainText(q);
    CloseThen(q);
    PlainThen(m, CloseStrong + q);
    OpenThen(m + (CloseStrong + q));
    PlainThen(p, OpenStrong + (m + (CloseStrong + q)));
    assert p + (m + q) == p + m + q;
  }
}

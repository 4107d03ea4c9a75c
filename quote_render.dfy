/** What the quote typewriter writes, as a function of its cursor
    (lineIndex, charIndex). The tick that moves the cursor, and the page
    elements it writes into, are in module Typewriter. */
module QuoteRender {
  import opened JsString
  import opened Markup

  /** The fixed script: three quote lines and the author line. */
  const Lines: seq<string> :=
    ["Tell me and I forget.", "Teach me and I remember.", "Involve me and I learn.", "-Benjamin Franklin"]
  /** The index of the author line, which goes to the author slot. */
  const AuthorLine: nat := 3
  /** The index of the line whose words "I learn" are set in bold. */
  const EmphasisLine: nat := 2
  const BeforeBold: string := "Involve me and "
  /** Start and end offsets of the bold range, as the script computes them. */
  const BoldStart: nat := |"Involve me and "|
  const BoldEnd: nat := |"Involve me and I learn"|

  /** The bold range is [15, 22) of a 23-character line: "I learn" in bold,
      the final "." after the closing tag. */
  lemma BoldOffsets()
    ensures |Lines| == 4
    ensures BoldStart == 15 && BoldEnd == 22 && |Lines[EmphasisLine]| == 23
    ensures Lines[EmphasisLine][..BoldStart] == BeforeBold
    ensures Lines[EmphasisLine][BoldStart..BoldEnd] == "I learn"
    ensures Lines[EmphasisLine][BoldEnd..] == "."
  {
  }

  lemma LinesArePlain()
    ensures forall l | 0 <= l < |Lines| :: Plain(Lines[l])
  {
    assert Plain(Lines[0]);
    assert Plain(Lines[1]);
    assert Plain(Lines[2]);
    assert Plain(Lines[3]);
  }

  /** The markup written for the emphasis line at cursor `c`, as the script
      builds it: plain below BoldStart, then the typed part of the bold range
      wrapped in `<strong>`, then the full bold range followed by the typed
      part of what comes after it. */
  function EmphasisHtml(c: nat): (r: string) {
    var line := Lines[EmphasisLine];
    if c < |BeforeBold| then
      Substring(line, 0, c + 1)
    else
      var boldPart := Substring(line, |BeforeBold|, BoldEnd);
      var afterBold := SubstringFrom(line, BoldEnd);
      if c < BoldEnd then
        var boldText := Substring(boldPart, 0, c - |BeforeBold| + 1);
        BeforeBold + OpenStrong + boldText + CloseStrong
      else
        var remainingText := Substring(afterBold, 0, c - BoldEnd + 1);
        BeforeBold + OpenStrong + boldPart + CloseStrong + remainingText
  }

  /** The one render of line `l` at cursor `c` (the branch that overwrites an
      existing paragraph, and the author slot): the prefix of length c + 1,
      with the emphasis markup on the emphasis line. */
  function RenderLine(l: nat, c: nat): (r: string)
    requires l < |Lines| && c < |Lines[l]|
  {
    if l == EmphasisLine then EmphasisHtml(c) else Substring(Lines[l], 0, c + 1)
  }

  /** What the branch that creates a new paragraph writes: the emphasis line
      as above, the other quote lines only the character at the cursor. */
  function NewParagraphText(l: nat, c: nat): (r: string)
    requires l < AuthorLine && c < |Lines[l]|
  {
    if l == EmphasisLine then EmphasisHtml(c) else CharAt(Lines[l], c)
  }

  /** The three shapes of the emphasis line, at the offsets the script uses. */
  lemma EmphasisShape(c: nat)
    requires c < |Lines[EmphasisLine]|
    ensures c < BoldStart ==> EmphasisHtml(c) == Lines[EmphasisLine][..c + 1]
    ensures BoldStart <= c < BoldEnd ==>
      EmphasisHtml(c) == BeforeBold + OpenStrong + Lines[EmphasisLine][BoldStart..c + 1] + CloseStrong
    ensures BoldEnd <= c ==>
      EmphasisHtml(c) == BeforeBold + OpenStrong + Lines[EmphasisLine][BoldStart..BoldEnd] + CloseStrong
                         + Lines[EmphasisLine][BoldEnd..c + 1]
  {
    BoldOffsets();
    var line := Lines[EmphasisLine];
    if BoldStart <= c {
      var boldPart := line[BoldStart..BoldEnd];
      assert Substring(line, BoldStart, BoldEnd) == boldPart;
      if c < BoldEnd {
        assert Substring(boldPart, 0, c - BoldStart + 1) == boldPart[..c - BoldStart + 1] == line[BoldStart..c + 1];
      } else {
        var afterBold := line[BoldEnd..];
        assert SubstringFrom(line, BoldEnd) == afterBold;
        assert Substring(afterBold, 0, c - BoldEnd + 1) == afterBold[..c - BoldEnd + 1] == line[BoldEnd..c + 1];
      }
    }
  }

  /** Whatever line and cursor: with the tags removed, the render is exactly
      the prefix of length c + 1; the emphasis line holds one balanced
      `<strong>` pair from BoldStart on and no tag before; every other line
      is written as plain text, so its render is the prefix itself. */
  lemma RenderIsPrefix(l: nat, c: nat)
    requires l < |Lines| && c < |Lines[l]|
    ensures Strip(RenderLine(l, c)) == Lines[l][..c + 1]
    ensures Tags(RenderLine(l, c)) == if l == EmphasisLine && BoldStart <= c then [Open, Close] else []
    ensures l != EmphasisLine ==> RenderLine(l, c) == Lines[l][..c + 1]
  {
    LinesArePlain();
    var line := Lines[l];
    if l == EmphasisLine {
      EmphasisShape(c);
      BoldOffsets();
      if c < BoldStart {
        PlainText(line[..c + 1]);
      } else if c < BoldEnd {
        Wrapped(BeforeBold, line[BoldStart..c + 1], []);
        assert BeforeBold + OpenStrong + line[BoldStart..c + 1] + CloseStrong + []
            == BeforeBold + OpenStrong + line[BoldStart..c + 1] + CloseStrong;
        assert line[..BoldStart] + line[BoldStart..c + 1] == line[..c + 1];
      } else {
        Wrapped(BeforeBold, line[BoldStart..BoldEnd], line[BoldEnd..c + 1]);
        assert line[..BoldStart] + line[BoldStart..BoldEnd] + line[BoldEnd..c + 1] == line[..c + 1];
      }
    } else {
      PlainText(line[..c + 1]);
    }
  }

  /** The two branches of a write agree at cursor 0, the only cursor at which
      the new-paragraph branch is taken (see WriteStep). */
  lemma NewParagraphAgrees(l: nat, c: nat)
    requires l < AuthorLine && c < |Lines[l]|
    requires c == 0
    ensures NewParagraphText(l, c) == RenderLine(l, c)
  {
    if l != EmphasisLine {
      assert Lines[l][..1] == [Lines[l][0]];
    }
  }

  /** At any cursor past the first character, the `charAt` write would lose
      the text typed so far: the two branches only agree at cursor 0. */
  lemma NewParagraphDiffersLater(l: nat, c: nat)
    requires l < AuthorLine && l != EmphasisLine && 0 < c < |Lines[l]|
    ensures NewParagraphText(l, c) != RenderLine(l, c)
  {
    RenderIsPrefix(l, c);
    assert |NewParagraphText(l, c)| == 1 < c + 1 == |RenderLine(l, c)|;
  }

  // ---- The view of the output at a cursor --------------------------------

  /** A cursor position the renderer can be in: lineIndex runs up to 4, where
      only the completion step is left; charIndex up to the line's length. */
  predicate CursorOk(l: nat, k: nat) {
    l <= |Lines| && (l < |Lines| ==> k <= |Lines[l]|) && (l == |Lines| ==> k == 0)
  }

  /** A quote line's paragraph once the line is fully typed. */
  function FullParagraph(i: nat): (r: string)
    requires i < AuthorLine
  {
    RenderLine(i, |Lines[i]| - 1)
  }

  /** The paragraphs of the first n quote lines, each fully typed. */
  function FullParagraphs(n: nat): (r: seq<string>)
    requires n <= AuthorLine
    ensures |r| == n
    ensures forall i | 0 <= i < n :: r[i] == FullParagraph(i)
  {
    if n == 0 then [] else FullParagraphs(n - 1) + [FullParagraph(n - 1)]
  }

  /** The paragraphs of the quote-text slot at cursor (l, k): every earlier
      quote line in full, then at k > 0 the current line's render at k - 1,
      the last character written. */
  function ParagraphsAt(l: nat, k: nat): (r: seq<string>)
    requires CursorOk(l, k)
  {
    if l < AuthorLine then
      FullParagraphs(l) + (if k > 0 then [RenderLine(l, k - 1)] else [])
    else
      FullParagraphs(AuthorLine)
  }

  /** The text of the author slot at cursor (l, k). */
  function AuthorAt(l: nat, k: nat): (r: string)
    requires CursorOk(l, k)
  {
    if l < AuthorLine then "" else if l == AuthorLine then Lines[AuthorLine][..k] else Lines[AuthorLine]
  }

  /** At every cursor, the visible text of each written paragraph is the
      prefix of its line typed so far (the whole line for earlier lines), the
      slot holds one paragraph per started quote line, and the author slot
      shows the typed prefix of the author line. */
  lemma VisibleTextIsPrefix(l: nat, k: nat)
    requires CursorOk(l, k)
    ensures |ParagraphsAt(l, k)| == if l < AuthorLine then (if k > 0 then l + 1 else l) else AuthorLine
    ensures forall i | 0 <= i < |ParagraphsAt(l, k)| ::
      Strip(ParagraphsAt(l, k)[i]) == if i < l then Lines[i] else Lines[i][..k]
    ensures AuthorAt(l, k) == if l < AuthorLine then "" else Lines[AuthorLine][..if l == AuthorLine then k else |Lines[AuthorLine]|]
  {
    forall i | 0 <= i < |ParagraphsAt(l, k)|
      ensures Strip(ParagraphsAt(l, k)[i]) == if i < l then Lines[i] else Lines[i][..k]
    {
      ParagraphIsPrefix(l, k, i);
    }
  }

  lemma ParagraphIsPrefix(l: nat, k: nat, i: nat)
    requires CursorOk(l, k) && i < |ParagraphsAt(l, k)|
    ensures Strip(ParagraphsAt(l, k)[i]) == if i < l then Lines[i] else Lines[i][..k]
  {
    var ps := ParagraphsAt(l, k);
    if i < l {
      var n := |Lines[i]|;
      assert ps[i] == FullParagraph(i) == RenderLine(i, n - 1);
      RenderIsPrefix(i, n - 1);
      assert Lines[i][..n] == Lines[i];
    } else {
      assert l < AuthorLine && i == l && k > 0;
      assert ps[i] == RenderLine(l, k - 1);
      RenderIsPrefix(l, k - 1);
    }
  }

  /** A write on a quote line: at cursor 0 the line's paragraph is added
      after the earlier ones, later it is overwritten in place. */
  lemma WriteStep(l: nat, k: nat)
    requires l < AuthorLine && k < |Lines[l]|
    ensures CursorOk(l, k) && CursorOk(l, k + 1)
    ensures |ParagraphsAt(l, k)| == (if k == 0 then l else l + 1)
    ensures ParagraphsAt(l, k + 1) ==
      if k == 0 then ParagraphsAt(l, k) + [RenderLine(l, k)] else ParagraphsAt(l, k)[l := RenderLine(l, k)]
    ensures AuthorAt(l, k + 1) == AuthorAt(l, k)
  {
  }

  /** A write on the author line changes only the author slot. */
  lemma AuthorStep(k: nat)
    requires k < |Lines[AuthorLine]|
    ensures CursorOk(AuthorLine, k) && CursorOk(AuthorLine, k + 1)
    ensures ParagraphsAt(AuthorLine, k + 1) == ParagraphsAt(AuthorLine, k)
    ensures AuthorAt(AuthorLine, k + 1) == Lines[AuthorLine][..k + 1] == Substring(Lines[AuthorLine], 0, k + 1)
  {
  }

  /** A line change writes nothing: the view at the end of a line is the
      view at the start of the next. */
  lemma LineStep(l: nat)
    requires l < |Lines|
    ensures CursorOk(l, |Lines[l]|) && CursorOk(l + 1, 0)
    ensures ParagraphsAt(l + 1, 0) == ParagraphsAt(l, |Lines[l]|)
    ensures AuthorAt(l + 1, 0) == AuthorAt(l, |Lines[l]|)
  {
    if l + 1 == AuthorLine {
      assert FullParagraphs(AuthorLine) == FullParagraphs(l) + [FullParagraph(l)];
    }
    if l == AuthorLine {
      assert Lines[AuthorLine][..|Lines[AuthorLine]|] == Lines[AuthorLine];
    }
  }

  // ---- How many ticks the timer chain runs --------------------------------

  /** The number of ticks from cursor (l, k) up to and including the
      completion tick, following the three cases of one tick. */
  function TicksFrom(l: nat, k: nat): (n: nat)
    requires CursorOk(l, k)
    decreases |Lines| - l, if l < |Lines| then |Lines[l]| - k else 0
  {
    if l == |Lines| then 1
    else if k < |Lines[l]| then 1 + TicksFrom(l, k + 1)
    else 1 + TicksFrom(l + 1, 0)
  }

  /** One tick per character and one per line change, for every line from l
      on. */
  function LineTicks(l: nat): (n: nat)
    requires l <= |Lines|
    decreases |Lines| - l
  {
    if l == |Lines| then 0 else |Lines[l]| + 1 + LineTicks(l + 1)
  }

  lemma {:induction false} TicksFromClosed(l: nat, k: nat)
    requires CursorOk(l, k) && l < |Lines|
    ensures TicksFrom(l, k) == |Lines[l]| - k + 1 + LineTicks(l + 1) + 1
    decreases |Lines| - l, |Lines[l]| - k
  {
    if k < |Lines[l]| {
      TicksFromClosed(l, k + 1);
    } else if l + 1 < |Lines| {
      TicksFromClosed(l + 1, 0);
    }
  }

  /** From the start the chain runs the sum of (length + 1) over the lines,
      plus one completion tick: 91 ticks. */
  lemma TotalTicks()
    ensures TicksFrom(0, 0) == LineTicks(0) + 1
    ensures TicksFrom(0, 0) == (|Lines[0]| + 1) + (|Lines[1]| + 1) + (|Lines[2]| + 1) + (|Lines[3]| + 1) + 1 == 91
  {
    TicksFromClosed(0, 0);
    assert LineTicks(4) == 0;
  }

  // ---- The cursors of the worked example ----------------------------------

  /** Cursor (2, 16): the bold tag holds the one character "I". */
  lemma AtTwoSixteen()
    ensures ParagraphsAt(2, 16)[2] == "Involve me and <strong>I</strong>"
  {
    EmphasisShape(15);
    BoldOffsets();
  }

  /** Cursor (2, 23): the whole emphasis line, "." after the closing tag. */
  lemma AtTwoTwentyThree()
    ensures ParagraphsAt(2, 23)[2] == "Involve me and <strong>I learn</strong>."
  {
    EmphasisShape(22);
    BoldOffsets();
  }

  /** Cursor (3, 5): the author slot shows "-Benj". */
  lemma AtThreeFive()
    ensures AuthorAt(3, 5) == "-Benj"
  {
  }
}

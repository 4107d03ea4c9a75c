/** The typewriter of the quote box: three page elements it writes into, the
    renderer whose cursor one tick advances, and the start-up that checks the
    elements exist. The strings written are defined in module QuoteRender. */
module Typewriter {
  import opened JsString
  import opened QuoteRender

  /** The element `currentElement` points to. */
  datatype Slot = QuoteText | QuoteAuthor

  /** The `.quote-text` element: the inner HTML of each of its `<p>` children. */
  class QuoteTextElement {
    var paragraphs: seq<string>

    constructor ()
      ensures paragraphs == []
    {
      paragraphs := [];
    }
  }

  /** The `.quote-author` element: its text content. */
  class QuoteAuthorElement {
    var text: string

    constructor ()
      ensures text == ""
    {
      text := "";
    }
  }

  /** The `.quote-box` element: whether it carries the `typing` and the
      `typing-complete` class. */
  class QuoteBoxElement {
    var typing: bool
    var typingComplete: bool

    constructor ()
      ensures !typing && !typingComplete
    {
      typing, typingComplete := false, false;
    }
  }

  /** The slot `currentElement` points to at cursor (l, k): it switches to
      the author slot on the first tick that runs on the author line. */
  function SlotAt(l: nat, k: nat): (s: Slot) {
    if l > AuthorLine || (l == AuthorLine && k > 0) then QuoteAuthor else QuoteText
  }

  /** The closure state of one typewriter run. `pending` says a further tick
      is scheduled on the timer. */
  class Renderer {
    const quoteText: QuoteTextElement
    const quoteAuthor: QuoteAuthorElement
    const quoteBox: QuoteBoxElement
    var lineIndex: nat
    var charIndex: nat
    var current: Slot
    var pending: bool

    /** The elements hold exactly what the cursor says has been typed;
        the box is marked `typing` until the completion tick, and
        `typing-complete` after it, never both. */
    ghost predicate Valid()
      reads this, quoteText, quoteAuthor, quoteBox
    {
      CursorOk(lineIndex, charIndex) &&
      quoteText.paragraphs == ParagraphsAt(lineIndex, charIndex) &&
      quoteAuthor.text == AuthorAt(lineIndex, charIndex) &&
      current == SlotAt(lineIndex, charIndex) &&
      (pending ==> quoteBox.typing && !quoteBox.typingComplete) &&
      (!pending ==> lineIndex == |Lines| && !quoteBox.typing && quoteBox.typingComplete)
    }

    /** Ticks still to run, the completion tick included. */
    ghost function Remaining(): nat
      reads this
      requires CursorOk(lineIndex, charIndex)
    {
      if pending then TicksFrom(lineIndex, charIndex) else 0
    }

    /** The cursor at (0, 0) on empty elements, with the box already
        marked `typing`. */
    constructor (text: QuoteTextElement, author: QuoteAuthorElement, box: QuoteBoxElement)
      requires text.paragraphs == [] && author.text == ""
      requires box.typing && !box.typingComplete
      ensures Valid()
      ensures quoteText == text && quoteAuthor == author && quoteBox == box
      ensures lineIndex == 0 && charIndex == 0 && current == QuoteText && pending
    {
      quoteText, quoteAuthor, quoteBox := text, author, box;
      lineIndex, charIndex := 0, 0;
      current := QuoteText;
      pending := true;
    }

    /** One run of `typeNextChar`: write the next prefix of the current line,
        or move to the next line, or (past the last line) swap the box's
        markers and schedule nothing more. */
    method Tick()
      requires Valid()
      modifies this, quoteText, quoteAuthor, quoteBox
      ensures Valid()
      // a write: the cursor moves by exactly one character
      ensures old(lineIndex) < |Lines| && old(charIndex) < |Lines[old(lineIndex)]| ==>
        lineIndex == old(lineIndex) && charIndex == old(charIndex) + 1 && pending
      // a line change: nothing is written
      ensures old(lineIndex) < |Lines| && old(charIndex) == |Lines[old(lineIndex)]| ==>
        lineIndex == old(lineIndex) + 1 && charIndex == 0 && pending &&
        quoteText.paragraphs == old(quoteText.paragraphs) && quoteAuthor.text == old(quoteAuthor.text)
      // a write on a quote line overwrites that line's paragraph only
      ensures old(lineIndex) < AuthorLine && old(charIndex) < |Lines[old(lineIndex)]| ==>
        |quoteText.paragraphs| == old(lineIndex) + 1 &&
        quoteText.paragraphs[old(lineIndex)] == RenderLine(old(lineIndex), old(charIndex)) &&
        quoteText.paragraphs[..old(lineIndex)] == old(quoteText.paragraphs)[..old(lineIndex)] &&
        quoteAuthor.text == old(quoteAuthor.text)
      // from the author line on, the quote text is never touched again
      ensures old(lineIndex) >= AuthorLine ==> quoteText.paragraphs == old(quoteText.paragraphs)
      ensures old(lineIndex) == AuthorLine && old(charIndex) < |Lines[AuthorLine]| ==>
        current == QuoteAuthor && quoteAuthor.text == Lines[AuthorLine][..old(charIndex) + 1]
      // the markers change only on the completion tick
      ensures old(lineIndex) < |Lines| ==>
        quoteBox.typing == old(quoteBox.typing) && quoteBox.typingComplete == old(quoteBox.typingComplete)
      ensures old(lineIndex) == |Lines| ==>
        lineIndex == |Lines| && charIndex == 0 && !pending &&
        !quoteBox.typing && quoteBox.typingComplete &&
        quoteText.paragraphs == old(quoteText.paragraphs) && quoteAuthor.text == old(quoteAuthor.text)
      ensures old(pending) ==> Remaining() == old(Remaining()) - 1
    {
      if lineIndex < |Lines| {
        var currentLine := Lines[lineIndex];
        if lineIndex == AuthorLine {
          current := QuoteAuthor;
        }
        if charIndex < |currentLine| {
          if lineIndex < AuthorLine {
            WriteStep(lineIndex, charIndex);
            if |quoteText.paragraphs| <= lineIndex {
              // only at the first character of a line
              NewParagraphAgrees(lineIndex, charIndex);
              quoteText.paragraphs := quoteText.paragraphs + [NewParagraphText(lineIndex, charIndex)];
            } else {
              quoteText.paragraphs := quoteText.paragraphs[lineIndex := RenderLine(lineIndex, charIndex)];
            }
          } else {
            AuthorStep(charIndex);
            quoteAuthor.text := Substring(currentLine, 0, charIndex + 1);
          }
          charIndex := charIndex + 1;
          pending := true;
        } else {
          LineStep(lineIndex);
          lineIndex := lineIndex + 1;
          charIndex := 0;
          pending := true;
        }
      } else {
        quoteBox.typing := false;
        quoteBox.typingComplete := true;
        pending := false;
      }
    }

    /** The timer chain: tick until no further tick is scheduled. Returns
        the number of ticks run. */
    method Run() returns (ticks: nat)
      requires Valid()
      modifies this, quoteText, quoteAuthor, quoteBox
      ensures Valid() && !pending && lineIndex == |Lines|
      ensures ticks == old(Remaining())
      ensures quoteText.paragraphs == FullParagraphs(AuthorLine) && quoteAuthor.text == Lines[AuthorLine]
      ensures !quoteBox.typing && quoteBox.typingComplete
    {
      ticks := 0;
      ghost var total := Remaining();
      while pending
        invariant Valid()
        invariant ticks + Remaining() == total
        decreases Remaining()
      {
        Tick();
        ticks := ticks + 1;
      }
    }
  }

  /** `typeWriter()`: with any of the three elements missing, nothing is
      changed and no renderer exists; otherwise the box is marked `typing`
      and the first tick runs at once. */
  method TypeWriter(text: QuoteTextElement?, author: QuoteAuthorElement?, box: QuoteBoxElement?)
    returns (r: Renderer?)
    requires text != null ==> text.paragraphs == []
    requires author != null ==> author.text == ""
    requires box != null ==> !box.typingComplete
    modifies text, author, box
    ensures r == null <==> text == null || author == null || box == null
    ensures r == null ==>
      (text != null ==> unchanged(text)) && (author != null ==> unchanged(author)) && (box != null ==> unchanged(box))
    ensures r != null ==>
      fresh(r) && r.Valid() && r.quoteText == text && r.quoteAuthor == author && r.quoteBox == box &&
      r.lineIndex == 0 && r.charIndex == 1 && r.pending &&
      text.paragraphs == [Lines[0][..1]] && author.text == "" && box.typing && !box.typingComplete
      && r.Remaining() == TicksFrom(0, 0) - 1
  {
    if text == null || author == null || box == null {
      return null;
    }
    box.typing := true;
    r := new Renderer(text, author, box);
    r.Tick();
    RenderIsPrefix(0, 0);
  }

  /** The whole animation, from `typeWriter()` to the last scheduled tick.
      Returns the number of ticks: 91 when the elements exist, each line
      fully typed and the box marked complete; none and no change otherwise. */
  method Animate(text: QuoteTextElement?, author: QuoteAuthorElement?, box: QuoteBoxElement?)
    returns (ticks: nat)
    requires text != null ==> text.paragraphs == []
    requires author != null ==> author.text == ""
    requires box != null ==> !box.typingComplete
    modifies text, author, box
    ensures text == null || author == null || box == null ==>
      ticks == 0 &&
      (text != null ==> unchanged(text)) && (author != null ==> unchanged(author)) && (box != null ==> unchanged(box))
    ensures text != null && author != null && box != null ==>
      ticks == TicksFrom(0, 0) == 91 &&
      text.paragraphs == FullParagraphs(AuthorLine) && author.text == Lines[AuthorLine] &&
      !box.typing && box.typingComplete
  {
    var r := TypeWriter(text, author, box);
    if r == null {
      return 0;
    }
    var rest := r.Run();
    ticks := rest + 1;
    TotalTicks();
  }
}

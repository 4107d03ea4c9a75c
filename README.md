# Quote typewriter and header scroll state

This project models the two pieces of logic in `script.js`, the script of a
marketing web site. Everything else in that file wires DOM events.

- **Typewriter renderer** (`typeWriter` / `typeNextChar`). It types a fixed
  four-line quote into the quote box, one character per timer tick. Lines 0-2
  go into one `<p>` each inside `.quote-text`. Line 3, the author, goes into
  `.quote-author` as plain text. On line 2, "Involve me and I learn.", the
  words "I learn" (offsets 15 to 22) are wrapped in `<strong>`. When the
  script is done, the box's `typing` class is replaced by `typing-complete`.
- **Header scroll state** (`handleScroll`). It blurs the header once the page
  scrolls past half the hero section's height, with a ±10 hysteresis band. It
  hides the header while scrolling down and shows it while scrolling up, and
  always shows it within 100 pixels of the top.

Modules:

- `JsString` (js_string.dfy): JavaScript's `substring` (clamping, swapping)
  and `charAt`.
- `Markup` (markup.dfy): reads written markup back. `Strip` gives the text a
  reader sees and `Tags` gives the `<strong>` tags in order. It also proves
  how both behave on plain text and on one wrapped span.
- `QuoteRender` (quote_render.dfy): the strings written at each cursor
  `(lineIndex, charIndex)`, plus the view of both slots at a cursor
  (`ParagraphsAt`, `AuthorAt`) and the number of ticks left (`TicksFrom`).
  The two duplicated render branches of the source are one function,
  `RenderLine`. The new-paragraph branch is `NewParagraphText`. A lemma proves
  the two agree wherever the new-paragraph branch is taken.
- `Typewriter` (typewriter.dfy): the three page elements as classes, and a
  `Renderer` class holding the closure's `lineIndex`, `charIndex` and
  `currentElement`. `Tick` is one run of `typeNextChar`. `Run` is the timer
  chain, run until nothing more is scheduled. `TypeWriter` is the start-up
  with its missing-element check, and `Animate` is the whole animation.
- `HeaderScroll` (header_scroll.dfy): the first-hero-height selection as a
  function, and the header's classes and `lastScrollTop` as a class whose
  `HandleScroll` method is one scroll event.

A paragraph's state is the markup string written into it. Lines 0, 1 and 3
are written as text content, and they contain no `<`, so their markup and
their text are the same.

A cursor `(l, k)` is the renderer's state between ticks. A write at
`charIndex` `c` leaves the cursor at `c + 1`. So at cursor `(l, k)` with
`k > 0`, the line shows `RenderLine(l, k - 1)`, which is its prefix of
length `k`.

The bold range ends at `"Involve me and I learn".length`, which is 22
(script.js:323-330). So the final "." of line 2 is typed after `</strong>`,
and at cursor (2, 23) the line reads
`Involve me and <strong>I learn</strong>.` (`QuoteRender.AtTwoTwentyThree`).

## Model

| member | source | states |
|---|---|---|
| QuoteRender.EmphasisHtml | script.js:319-332 | The line-2 markup at cursor c, built with the same clamped `substring` calls as the source (the same code stands at :342-355). Its meaning is stated by `QuoteRender.EmphasisShape` and `QuoteRender.RenderIsPrefix`. |
| QuoteRender.RenderLine | script.js:339-363 | The one render of line l at cursor c: the overwrite branch for quote lines and the author write. Its meaning is stated by `QuoteRender.RenderIsPrefix`. |
| QuoteRender.NewParagraphText | script.js:316-336 | What the new-paragraph branch writes: `charAt(c)` on lines 0-1, the line-2 markup on line 2. Its relation to `RenderLine` is stated by `QuoteRender.NewParagraphAgrees` and `QuoteRender.NewParagraphDiffersLater`. |
| QuoteRender.BoldOffsets | script.js:319-330 | The bold range computed from the two literal phrases is [15, 22) of the 23-character line 2: "I learn" is bold, the final "." is not, and the text before it is "Involve me and ". |
| QuoteRender.EmphasisShape | script.js:317-356 | Line 2 at cursor c: the plain prefix of length c+1 for c < 15; "Involve me and " + `<strong>` + the typed part of the bold range + `</strong>` for 15 ≤ c < 22; for c ≥ 22, the whole bold range wrapped in tags, then the typed part of what follows it. |
| QuoteRender.RenderIsPrefix | script.js:310-364 | For every line and cursor, removing the tags from the render gives exactly the line's prefix of length c+1. Line 2 holds no tag before offset 15 and exactly one balanced `<strong>`…`</strong>` pair from offset 15 on. Every other line (the author line included) renders as that prefix itself. |
| QuoteRender.NewParagraphAgrees | script.js:315-359 | At cursor 0, the new-paragraph branch (`charAt` for lines 0-1, the emphasis markup for line 2) writes the same string as the overwrite branch. `QuoteRender.WriteStep` shows that cursor 0 is the only cursor at which the branch is taken. |
| QuoteRender.NewParagraphDiffersLater | script.js:334-358 | The `charAt` write and the prefix write differ at every cursor past 0 on lines 0-1, so the new-paragraph branch is correct only because it is taken only at cursor 0. |
| QuoteRender.WriteStep | script.js:312-360 | A write on a quote line appends that line's paragraph at cursor 0 and overwrites it in place afterwards. The slot holds l paragraphs before the first write and l+1 after it, and the author slot does not change. |
| QuoteRender.AuthorStep | script.js:361-364 | A write on the author line changes only the author slot, which then holds the author line's prefix of length c+1. |
| QuoteRender.LineStep | script.js:368-373 | Moving to the next line writes nothing: both slots look the same at the end of one line as at the start of the next. |
| QuoteRender.ParagraphIsPrefix | script.js:314-359 | At any cursor, the visible text of paragraph i is the whole of line i when i is an earlier line, and the typed prefix when i is the current line. |
| QuoteRender.VisibleTextIsPrefix | script.js:301-373 | At every cursor the quote-text slot holds one paragraph per started quote line. Each paragraph's visible text is its line's typed prefix (the whole line for earlier lines). The author slot shows the author line's typed prefix. |
| QuoteRender.TicksFromClosed | script.js:301-378 | From cursor (l, k), the ticks left are the characters left on line l, one line change per line, each later line's length + 1, and one completion tick. |
| QuoteRender.TotalTicks | script.js:301-381 | From (0, 0), completion happens after exactly Σ(len_i + 1) + 1 = 91 ticks. |
| QuoteRender.AtTwoSixteen | script.js:326-328 | At cursor (2, 16), line 2 reads "Involve me and <strong>I</strong>". |
| QuoteRender.AtTwoTwentyThree | script.js:329-331 | At cursor (2, 23), line 2 reads "Involve me and <strong>I learn</strong>.". |
| QuoteRender.AtThreeFive | script.js:362-363 | At cursor (3, 5), the author slot shows "-Benj". |
| Typewriter.Renderer.constructor | script.js:297-299 | The cursor starts at (0, 0) with the current element the quote text, on empty slots, and the invariant holds. |
| Typewriter.Renderer.Tick | script.js:301-379 | Below line 4, a tick either writes (charIndex < length: the cursor moves by exactly 1) or changes line (charIndex = length: the cursor moves to (l+1, 0) and nothing is written). A write on line l < 3 leaves exactly l+1 paragraphs, with earlier ones unchanged and paragraph l = `RenderLine(l, c)`. From line 3 on, the quote text is never touched and the current element is the author slot. At line 4 the tick swaps `typing` for `typing-complete` and schedules nothing. The invariant (slots = the view at the cursor; exactly one marker) is kept, and the ticks left drop by one. |
| Typewriter.Renderer.Run | script.js:366-378 | The timer chain stops after exactly the ticks left, with every quote line and the author line fully typed and the box marked `typing-complete` and not `typing`. |
| Typewriter.TypeWriter | script.js:284-382 | If any of the three elements is missing, nothing is changed and no renderer is made. Otherwise the box is marked `typing` and the first tick runs at once, writing "T". |
| Typewriter.Animate | script.js:284-389 | The whole animation: 91 ticks, all lines typed and `typing-complete` set when the elements exist; no tick and no change otherwise. |
| HeaderScroll.PresentHeights | script.js:60-67 | `filter(Boolean)` over the probed sections: a height is in the result exactly when some probed section is present with that height, and the result is never longer than the probe list. That the first element is the first present section's height, the only element the source reads (script.js:71-72), is stated by `HeaderScroll.HeroHeightIsFirstPresent`. |
| HeaderScroll.HeroHeight | script.js:69-73 | The first present height, or 0. Its meaning is stated by `HeaderScroll.HeroHeightIsFirstPresent` and `HeaderScroll.HeroHeightNoneIsZero`. |
| HeaderScroll.HeroHeightIsFirstPresent | script.js:59-73 | The hero height is the height of the first probed hero section that is present on the page. |
| HeaderScroll.HeroHeightNoneIsZero | script.js:70-73 | With no hero section present, the hero height is 0. |
| HeaderScroll.Header.constructor | script.js:52 | `lastScrollTop` starts at 0, and the header classes are whatever the page starts with. |
| HeaderScroll.Header.HandleScroll | script.js:56-111 | After the call: blurred if scrollTop > heroHeight/2 + 10, not blurred if scrollTop < heroHeight/2 - 10, and unchanged inside the band. At or below 100 the header is visible and not hidden. Above 100, scrolling down hides it and scrolling up shows it, and an unchanged offset leaves both flags as they were. `lastScrollTop` becomes max(scrollTop, 0), so it is never negative. |

## Left out

- DOM elements, `classList`, `innerHTML` and `textContent` are plain fields: a sequence of paragraph strings, an author string and two marker booleans.
- Timer delays (25, 150 and 1200 ms) and the event loop are not modelled. A tick is a method call, and `setTimeout` is the `pending` flag.
- Typewriter.TypeWriter requires the quote text and author slots to start empty, as the comment at script.js:296 says the page provides; pre-existing `<p>` children are not modelled. It also requires the box not to carry `typing-complete` at the start. That is an assumption about the page, made so that the two markers stay exclusive: with the class already present, the source would still run and the box would carry both markers until the completion tick.
- `typeWriter` is called once, from the `load` listener through `startTypewriter` (script.js:385-394), so only one run is modelled.
- HeaderScroll.Header.HandleScroll takes the scroll offset as a real number. Reading it (`pageYOffset || documentElement.scrollTop`) is browser I/O. Floating-point rounding and NaN are not modelled; `heroHeight / 2` is exact.
- HeaderScroll.Header.HandleScroll assumes the `.header` element exists. With it missing, the source would throw on `classList`.
- The scroll throttle (`throttledScroll`, script.js:113-126) is event-loop timing, not logic.
- Sidebar open/close, Escape-key handling and anchor scrolling (script.js:1-49) are flag flips on DOM nodes.
- IntersectionObserver animations (script.js:128-198, 489-510) are driven by browser visibility callbacks.
- Copyright year and floating labels (script.js:200-252) read the clock and tweak CSS.
- Form and search stubs, navigation and `scrollIntoView` (script.js:254-281, 446-487) either show an alert or navigate.
- Logo hover timeouts (script.js:401-444) are timers over class swaps.
- Video play and pause handlers (script.js:474-487) also set `header-hidden`. For that reason, hidden/visible exclusivity is not claimed as a global invariant of the header.

/** What the rendering of `PdfGenerator.Layout` promises about its pages.

    Page 0 starts with the header block (the watermark first when it is on);
    every later page starts with the watermark when it is on. After that, each
    page holds body lines only, drawn at x = margin, 6 units apart, starting at
    the cursor the header left (page 0) or at the margin (later pages). A page
    is closed exactly when the next line's cursor would be past the bottom
    limit, and reading the body lines page by page gives back the wrapped
    content in order. The footer is the last placement of the last page. */
module PdfPagination {
  import opened Text
  import opened PdfGenerator

  /** Placements of the header block: the watermark (when on) and five text runs. */
  function HeaderLength(watermark: bool): nat { if watermark then 6 else 5 }

  /** Index on page `k` at which the body lines begin. */
  function Offset(watermark: bool, k: nat): nat
  {
    if k == 0 then HeaderLength(watermark) else if watermark then 1 else 0
  }

  /** Cursor of the first body line on page `k`. */
  function Top(k: nat, y0: real): real { if k == 0 then y0 else Margin }

  /** The font size the body lines of page `k` are drawn at. */
  function BodyFont(watermark: bool, restoreFont: bool, k: nat): nat
  {
    if k > 0 && watermark && !restoreFont then 50 else 11
  }

  /** Cursor of the `i`-th body line of a page whose first line is at `top`. */
  function LineY(top: real, i: int): real { top + LineAdvance * i as real }

  predicate IsBodyLine(p: Placement, y: real, size: nat)
  {
    |p.lines| == 1 && p == Placement(p.lines, Margin, y, size, Black, Normal, Left, 0)
  }

  /** The header block of page 0, with the positions the source computes. */
  function HeaderPlacements(post: PostInfo, watermark: bool, h: Host): seq<Placement>
  {
    var titleLines := TitleLines(post, h);
    var y := Margin + |titleLines| as real * 10.0 + 10.0;
    (if watermark then [WatermarkPlacement(h)] else []) +
    [ Placement(titleLines, Margin, Margin, 20, Black, Bold, Left, 0),
      Placement(["By " + post.authorName], Margin, y, 12, Black, Normal, Left, 0),
      Placement(["Published: " + h.localeDate(post.createdAt)], Margin, y + 8.0, 12, Black, Normal, Left, 0),
      Placement([CategoryLine(post)], Margin, y + 23.0, 12, Black, Normal, Left, 0),
      Placement([TagsLine(post)], Margin, y + 31.0, 12, Black, Normal, Left, 0) ]
  }

  /** Where the body starts: margin + 10 per title line + 61. */
  function BodyStart(post: PostInfo, h: Host): real
  {
    Margin + |TitleLines(post, h)| as real * 10.0 + 61.0
  }

  /** The concatenated text of a list of placements. */
  function LinesOf(ps: seq<Placement>): seq<string>
  {
    if ps == [] then [] else LinesOf(ps[..|ps| - 1]) + ps[|ps| - 1].lines
  }

  function BodyOf(p: Page, off: nat): seq<Placement>
  {
    if off <= |p| then p[off..] else []
  }

  /** The body text of the pages, read page by page. */
  function BodyText(pages: seq<Page>, watermark: bool): seq<string>
  {
    if pages == [] then []
    else BodyText(pages[..|pages| - 1], watermark) + LinesOf(BodyOf(pages[|pages| - 1], Offset(watermark, |pages| - 1)))
  }

  /** What holds of page `k` (`closed` when a later page exists): the
      watermark first on added pages when it is on, then body lines 6 apart
      from the page's top cursor, each drawn within the limit unless it is the
      line that opened the page, and a closed page was closed because the next
      line's cursor was past the limit. */
  ghost predicate PageOk(p: Page, k: nat, y0: real, watermark: bool, restoreFont: bool, h: Host, closed: bool)
  {
    var off := Offset(watermark, k);
    && |p| >= off
    && (k > 0 ==> |p| > off)
    && (k > 0 && watermark ==> p[0] == WatermarkPlacement(h))
    && (forall j :: off <= j < |p| ==> IsBodyLine(p[j], LineY(Top(k, y0), j - off), BodyFont(watermark, restoreFont, k)))
    && (forall j :: off <= j < |p| && (k == 0 || j > off) ==> p[j].y <= Limit(h))
    && (closed ==> LineY(Top(k, y0), |p| - off) > Limit(h))
  }

  /** `PageOk` for page `k` of `pages`, closed unless it is the last one. */
  ghost predicate PageAt(pages: seq<Page>, k: nat, y0: real, watermark: bool, restoreFont: bool, h: Host)
    requires k < |pages|
  {
    PageOk(pages[k], k, y0, watermark, restoreFont, h, k < |pages| - 1)
  }

  /** The shape of the pages during and after the body loop, for body start
      `y0`, cursor `y` and header block `hdr`. */
  ghost predicate Paginated(pages: seq<Page>, y: real, y0: real, watermark: bool, restoreFont: bool, h: Host, hdr: seq<Placement>)
  {
    && pages != []
    && |hdr| == HeaderLength(watermark)
    && |pages[0]| >= |hdr| && pages[0][..|hdr|] == hdr
    && (forall k :: 0 <= k < |pages| ==> PageAt(pages, k, y0, watermark, restoreFont, h))
    && y == LineY(Top(|pages| - 1, y0), |pages[|pages| - 1]| - Offset(watermark, |pages| - 1))
  }

  /** The drawing state the loop keeps: body font, black, normal weight. */
  predicate BodyState(d: DocState, watermark: bool, restoreFont: bool)
  {
    d.pages != [] && d.fontSize == BodyFont(watermark, restoreFont, |d.pages| - 1) && d.color == Black && d.weight == Normal
  }

  ghost predicate LoopInvariant(d: DocState, y: real, y0: real, watermark: bool, restoreFont: bool, h: Host,
                                hdr: seq<Placement>, done: seq<string>)
  {
    && Paginated(d.pages, y, y0, watermark, restoreFont, h, hdr)
    && BodyState(d, watermark, restoreFont)
    && BodyText(d.pages, watermark) == done
  }

  lemma LinesOfSnoc(ps: seq<Placement>, p: Placement)
    ensures LinesOf(ps + [p]) == LinesOf(ps) + p.lines
  {
    assert (ps + [p])[..|ps|] == ps;
  }

  lemma BodyTextSnoc(pages: seq<Page>, p: Page, watermark: bool)
    ensures BodyText(pages + [p], watermark) == BodyText(pages, watermark) + LinesOf(BodyOf(p, Offset(watermark, |pages|)))
  {
    assert (pages + [p])[..|pages|] == pages;
  }

  /** The header leaves page 0 holding exactly the header block, the cursor at
      margin + 10n + 61 for n title lines, and 11pt black normal text. */
  lemma HeaderShape(post: PostInfo, watermark: bool, h: Host)
    ensures Header(post, watermark, h).0.pages == [HeaderPlacements(post, watermark, h)]
    ensures Header(post, watermark, h).1 == BodyStart(post, h)
    ensures BodyState(Header(post, watermark, h).0, watermark, false)
    ensures BodyState(Header(post, watermark, h).0, watermark, true)
  {
    var stamp := PageStart(watermark, h);
    var t := TitleBlock(post, watermark, h);
    TitleShape(post, watermark, h);
    var hdr := HeaderPlacements(post, watermark, h);
    BylineShape(t.0, stamp + [hdr[|stamp|]], t.1, post, h);
    var y := t.1;
    assert hdr == stamp + [hdr[|stamp|]] +
           [ Placement(["By " + post.authorName], Margin, y, 12, Black, Normal, Left, 0),
             Placement(["Published: " + h.localeDate(post.createdAt)], Margin, y + 8.0, 12, Black, Normal, Left, 0),
             Placement([CategoryLine(post)], Margin, y + 23.0, 12, Black, Normal, Left, 0),
             Placement([TagsLine(post)], Margin, y + 31.0, 12, Black, Normal, Left, 0) ];
  }

  /** The byline appends its four lines, 8, 15 and 8 apart, to a one-page document. */
  lemma BylineShape(d: DocState, p: Page, y: real, post: PostInfo, h: Host)
    requires d.pages == [p] && d.color == Black
    ensures Byline(d, y, post, h).0.pages ==
            [p + [ Placement(["By " + post.authorName], Margin, y, 12, Black, Normal, Left, 0),
                   Placement(["Published: " + h.localeDate(post.createdAt)], Margin, y + 8.0, 12, Black, Normal, Left, 0),
                   Placement([CategoryLine(post)], Margin, y + 23.0, 12, Black, Normal, Left, 0),
                   Placement([TagsLine(post)], Margin, y + 31.0, 12, Black, Normal, Left, 0) ]]
    ensures Byline(d, y, post, h).1 == y + 51.0
  {
    var d3 := WithWeight(WithFontSize(d, 12), Normal);
    var d4 := WithText(d3, ["By " + post.authorName], Margin, y, Left, 0);
    var d5 := WithText(d4, ["Published: " + h.localeDate(post.createdAt)], Margin, y + 8.0, Left, 0);
    var d6 := WithText(d5, [CategoryLine(post)], Margin, y + 23.0, Left, 0);
    var q := [ Placement(["By " + post.authorName], Margin, y, 12, Black, Normal, Left, 0),
               Placement(["Published: " + h.localeDate(post.createdAt)], Margin, y + 8.0, 12, Black, Normal, Left, 0),
               Placement([CategoryLine(post)], Margin, y + 23.0, 12, Black, Normal, Left, 0),
               Placement([TagsLine(post)], Margin, y + 31.0, 12, Black, Normal, Left, 0) ];
    DrawOnSinglePage(d3, p, ["By " + post.authorName], Margin, y, Left, 0);
    DrawOnSinglePage(d4, p + [q[0]], ["Published: " + h.localeDate(post.createdAt)], Margin, y + 8.0, Left, 0);
    DrawOnSinglePage(d5, p + [q[0]] + [q[1]], [CategoryLine(post)], Margin, y + 23.0, Left, 0);
    DrawOnSinglePage(d6, p + [q[0]] + [q[1]] + [q[2]], [TagsLine(post)], Margin, y + 31.0, Left, 0);
    assert p + [q[0]] + [q[1]] + [q[2]] + [q[3]] == p + q;
  }

  /** After the title: the watermark (when on) and the title on page 0, black text. */
  lemma TitleShape(post: PostInfo, watermark: bool, h: Host)
    ensures var t := TitleBlock(post, watermark, h);
            && t.0.pages == [PageStart(watermark, h) + [HeaderPlacements(post, watermark, h)[|PageStart(watermark, h)|]]]
            && t.0.color == Black
            && t.1 == Margin + |TitleLines(post, h)| as real * 10.0 + 10.0
  {
    var stamp := PageStart(watermark, h);
    var d0 := if watermark then Stamp(NewDoc, h) else NewDoc;
    StampNewDoc(h);
    assert d0.pages == [stamp] && d0.weight == Normal;
    var d1 := WithWeight(WithFontSize(WithColor(d0, Black), 20), Bold);
    DrawOnSinglePage(d1, stamp, TitleLines(post, h), Margin, Margin, Left, 0);
  }

  /** The first-page watermark. */
  lemma StampNewDoc(h: Host)
    ensures Stamp(NewDoc, h).pages == [[WatermarkPlacement(h)]]
    ensures Stamp(NewDoc, h).weight == Normal
  {
    var e := WithFontSize(WithColor(NewDoc, LightGrey), 50);
    assert e.pages == [[]] && e.fontSize == 50 && e.color == LightGrey && e.weight == Normal;
    DrawOnSinglePage(e, [], [WatermarkText], h.pageWidth / 2.0, h.pageHeight / 2.0, Center, 45);
    assert [] + [WatermarkPlacement(h)] == [WatermarkPlacement(h)];
  }

  /** Drawing on a one-page document appends to that page. */
  lemma DrawOnSinglePage(d: DocState, p: Page, lines: seq<string>, x: real, y: real, align: Align, angle: int)
    requires d.pages == [p]
    ensures WithText(d, lines, x, y, align, angle).pages == [p + [Placement(lines, x, y, d.fontSize, d.color, d.weight, align, angle)]]
  {
  }

  /** Appending a line at the cursor keeps an open page well formed. */
  lemma PageAppendLine(p: Page, k: nat, y0: real, watermark: bool, restoreFont: bool, h: Host, line: string)
    requires PageOk(p, k, y0, watermark, restoreFont, h, false)
    requires LineY(Top(k, y0), |p| - Offset(watermark, k)) <= Limit(h)
    ensures var q := Placement([line], Margin, LineY(Top(k, y0), |p| - Offset(watermark, k)),
                               BodyFont(watermark, restoreFont, k), Black, Normal, Left, 0);
            PageOk(p + [q], k, y0, watermark, restoreFont, h, false)
  {
    var q := Placement([line], Margin, LineY(Top(k, y0), |p| - Offset(watermark, k)),
                       BodyFont(watermark, restoreFont, k), Black, Normal, Left, 0);
    var off := Offset(watermark, k);
    assert forall j :: 0 <= j < |p| ==> (p + [q])[j] == p[j];
    assert (p + [q])[|p|] == q;
    assert k > 0 && watermark ==> |p| > 0;
  }

  /** The line the loop draws at cursor `y` on page `k`. */
  function BodyLine(line: string, y: real, watermark: bool, restoreFont: bool, k: nat): Placement
  {
    Placement([line], Margin, y, BodyFont(watermark, restoreFont, k), Black, Normal, Left, 0)
  }

  /** The placements a page break puts on the new page before its first line. */
  function PageStart(watermark: bool, h: Host): Page
  {
    if watermark then [WatermarkPlacement(h)] else []
  }

  /** Drawing at a cursor within the limit keeps the pages `Paginated`. */
  lemma AppendKeepsPaginated(pages: seq<Page>, y: real, y0: real, watermark: bool, restoreFont: bool, h: Host,
                             hdr: seq<Placement>, line: string)
    requires Paginated(pages, y, y0, watermark, restoreFont, h, hdr)
    requires y <= Limit(h)
    ensures var L := |pages| - 1;
            Paginated(pages[..L] + [pages[L] + [BodyLine(line, y, watermark, restoreFont, L)]],
                      y + LineAdvance, y0, watermark, restoreFont, h, hdr)
  {
    var L := |pages| - 1;
    var q := BodyLine(line, y, watermark, restoreFont, L);
    var pages' := pages[..L] + [pages[L] + [q]];
    assert PageAt(pages, L, y0, watermark, restoreFont, h);
    PageAppendLine(pages[L], L, y0, watermark, restoreFont, h, line);
    forall k | 0 <= k < |pages'|
      ensures PageAt(pages', k, y0, watermark, restoreFont, h)
    {
      if k < L {
        assert pages'[k] == pages[k] && PageAt(pages, k, y0, watermark, restoreFont, h);
      }
    }
    if L == 0 {
      assert pages'[0][..|hdr|] == pages[0][..|hdr|];
    } else {
      assert pages'[0] == pages[0];
    }
  }

  /** A page is closed because the next line's cursor is past the limit. */
  lemma ClosePage(p: Page, k: nat, y0: real, watermark: bool, restoreFont: bool, h: Host)
    requires PageOk(p, k, y0, watermark, restoreFont, h, false)
    requires LineY(Top(k, y0), |p| - Offset(watermark, k)) > Limit(h)
    ensures PageOk(p, k, y0, watermark, restoreFont, h, true)
  {
  }

  /** A page opened by a break holds the watermark (when on) and the line at the margin. */
  lemma NewPage(k: nat, y0: real, watermark: bool, restoreFont: bool, h: Host, line: string)
    requires k > 0
    ensures PageOk(PageStart(watermark, h) + [BodyLine(line, Margin, watermark, restoreFont, k)], k, y0, watermark, restoreFont, h, false)
  {
    var stamp := PageStart(watermark, h);
    var p := BodyLine(line, Margin, watermark, restoreFont, k);
    assert (stamp + [p])[|stamp|] == p;
  }

  /** Breaking at a cursor past the limit and drawing at the top of the new
      page keeps the pages `Paginated`. */
  lemma BreakKeepsPaginated(pages: seq<Page>, y: real, y0: real, watermark: bool, restoreFont: bool, h: Host,
                            hdr: seq<Placement>, line: string)
    requires Paginated(pages, y, y0, watermark, restoreFont, h, hdr)
    requires y > Limit(h)
    ensures Paginated(pages + [PageStart(watermark, h) + [BodyLine(line, Margin, watermark, restoreFont, |pages|)]],
                      Margin + LineAdvance, y0, watermark, restoreFont, h, hdr)
  {
    var L := |pages| - 1;
    var p := PageStart(watermark, h) + [BodyLine(line, Margin, watermark, restoreFont, L + 1)];
    var pages' := pages + [p];
    NewPage(L + 1, y0, watermark, restoreFont, h, line);
    assert PageAt(pages, L, y0, watermark, restoreFont, h);
    ClosePage(pages[L], L, y0, watermark, restoreFont, h);
    forall k | 0 <= k < |pages'|
      ensures PageAt(pages', k, y0, watermark, restoreFont, h)
    {
      if k <= L {
        assert pages'[k] == pages[k] && PageAt(pages, k, y0, watermark, restoreFont, h);
      }
    }
    assert pages'[0] == pages[0];
  }

  lemma AppendText(front: seq<Page>, a: Page, watermark: bool, q: Placement)
    requires |a| >= Offset(watermark, |front|)
    ensures BodyText(front + [a + [q]], watermark) == BodyText(front + [a], watermark) + q.lines
  {
    var off := Offset(watermark, |front|);
    BodyTextSnoc(front, a, watermark);
    BodyTextSnoc(front, a + [q], watermark);
    assert BodyOf(a + [q], off) == a[off..] + [q];
    LinesOfSnoc(a[off..], q);
    AppendAssociates(BodyText(front, watermark), LinesOf(a[off..]), q.lines);
  }

  lemma AppendAssociates<T>(x: seq<T>, y: seq<T>, z: seq<T>)
    ensures x + (y + z) == (x + y) + z
  {
  }

  lemma BreakText(pages: seq<Page>, watermark: bool, h: Host, q: Placement)
    requires pages != []
    ensures BodyText(pages + [PageStart(watermark, h) + [q]], watermark) == BodyText(pages, watermark) + q.lines
  {
    var stamp := PageStart(watermark, h);
    BodyTextSnoc(pages, stamp + [q], watermark);
    assert BodyOf(stamp + [q], Offset(watermark, |pages|)) == [q];
    LinesOfSnoc([], q);
    assert [] + [q] == [q] && [] + q.lines == q.lines;
  }

  /** What one loop step does to the pages, in the two cases of the break rule. */
  lemma StepPages(d: DocState, y: real, line: string, watermark: bool, restoreFont: bool, h: Host)
    requires BodyState(d, watermark, restoreFont)
    ensures var s := Step(d, y, line, watermark, restoreFont, h);
            var L := |d.pages| - 1;
            && BodyState(s.0, watermark, restoreFont)
            && (y <= Limit(h) ==> s.0.pages == d.pages[..L] + [d.pages[L] + [BodyLine(line, y, watermark, restoreFont, L)]])
            && (y > Limit(h) ==> s.0.pages == d.pages + [PageStart(watermark, h) + [BodyLine(line, Margin, watermark, restoreFont, L + 1)]])
  {
    var L := |d.pages| - 1;
    if y > Limit(h) {
      var b := BreakPage(d, watermark, restoreFont, h);
      var d1 := WithPage(d);
      if watermark {
        var st := Stamp(d1, h);
        assert st.pages[..|d.pages|] == d.pages;
        assert st.pages[|d.pages|] == [WatermarkPlacement(h)];
        assert st.pages == st.pages[..|d.pages|] + [st.pages[|d.pages|]];
      }
      assert b.pages == d.pages + [PageStart(watermark, h)];
      assert b.fontSize == BodyFont(watermark, restoreFont, L + 1) && b.color == Black && b.weight == Normal;
    }
  }

  lemma StepKeepsPaginated(d: DocState, y: real, y0: real, line: string, watermark: bool, restoreFont: bool,
                            h: Host, hdr: seq<Placement>)
    requires Paginated(d.pages, y, y0, watermark, restoreFont, h, hdr) && BodyState(d, watermark, restoreFont)
    ensures var s := Step(d, y, line, watermark, restoreFont, h);
            Paginated(s.0.pages, s.1, y0, watermark, restoreFont, h, hdr) && BodyState(s.0, watermark, restoreFont)
  {
    StepPages(d, y, line, watermark, restoreFont, h);
    if y > Limit(h) {
      BreakKeepsPaginated(d.pages, y, y0, watermark, restoreFont, h, hdr, line);
    } else {
      AppendKeepsPaginated(d.pages, y, y0, watermark, restoreFont, h, hdr, line);
    }
  }

  lemma StepKeepsText(d: DocState, y: real, line: string, watermark: bool, restoreFont: bool, h: Host)
    requires BodyState(d, watermark, restoreFont)
    requires |d.pages[|d.pages| - 1]| >= Offset(watermark, |d.pages| - 1)
    ensures BodyText(Step(d, y, line, watermark, restoreFont, h).0.pages, watermark) == BodyText(d.pages, watermark) + [line]
  {
    StepPages(d, y, line, watermark, restoreFont, h);
    var L := |d.pages| - 1;
    if y > Limit(h) {
      BreakText(d.pages, watermark, h, BodyLine(line, Margin, watermark, restoreFont, L + 1));
    } else {
      AppendText(d.pages[..L], d.pages[L], watermark, BodyLine(line, y, watermark, restoreFont, L));
      assert d.pages[..L] + [d.pages[L]] == d.pages;
    }
  }

  lemma StepKeepsInvariant(d: DocState, y: real, y0: real, line: string, watermark: bool, restoreFont: bool,
                           h: Host, hdr: seq<Placement>, done: seq<string>)
    requires LoopInvariant(d, y, y0, watermark, restoreFont, h, hdr, done)
    ensures var s := Step(d, y, line, watermark, restoreFont, h);
            LoopInvariant(s.0, s.1, y0, watermark, restoreFont, h, hdr, done + [line])
  {
    StepKeepsPaginated(d, y, y0, line, watermark, restoreFont, h, hdr);
    assert PageAt(d.pages, |d.pages| - 1, y0, watermark, restoreFont, h);
    StepKeepsText(d, y, line, watermark, restoreFont, h);
  }

  /** The body loop keeps the pages `Paginated` and appends exactly its lines
      to the body text. */
  lemma {:induction false} RunKeepsInvariant(d: DocState, y: real, y0: real, lines: seq<string>, watermark: bool,
                                             restoreFont: bool, h: Host, hdr: seq<Placement>, done: seq<string>)
    requires LoopInvariant(d, y, y0, watermark, restoreFont, h, hdr, done)
    ensures var r := Run(d, y, lines, watermark, restoreFont, h);
            LoopInvariant(r.0, r.1, y0, watermark, restoreFont, h, hdr, done + lines)
    decreases |lines|
  {
    if lines == [] {
      assert done + lines == done;
    } else {
      var s := Step(d, y, lines[0], watermark, restoreFont, h);
      StepKeepsInvariant(d, y, y0, lines[0], watermark, restoreFont, h, hdr, done);
      RunKeepsInvariant(s.0, s.1, y0, lines[1..], watermark, restoreFont, h, hdr, done + [lines[0]]);
      AppendFirst(done, lines);
    }
  }

  lemma AppendFirst<T>(done: seq<T>, lines: seq<T>)
    requires lines != []
    ensures done + [lines[0]] + lines[1..] == done + lines
  {
    assert lines == [lines[0]] + lines[1..];
  }

  /** The document before the footer: header on page 0, the body paginated,
      and the body text read back in order equal to the wrapped content. */
  lemma {:induction false} BodyIsPaginated(post: PostInfo, watermark: bool, restoreFont: bool, h: Host)
    ensures var b := Body(post, watermark, restoreFont, h);
            && Paginated(b.0.pages, b.1, BodyStart(post, h), watermark, restoreFont, h, HeaderPlacements(post, watermark, h))
            && BodyState(b.0, watermark, restoreFont)
            && BodyText(b.0.pages, watermark) == ContentLines(post, h)
  {
    var hd := Header(post, watermark, h);
    HeaderShape(post, watermark, h);
    var hdr := HeaderPlacements(post, watermark, h);
    assert BodyText(hd.0.pages, watermark) == [] by {
      assert hd.0.pages == [] + [hdr];
      BodyTextSnoc([], hdr, watermark);
      assert BodyOf(hdr, Offset(watermark, 0)) == [];
    }
    assert hd.0.pages[0][..|hdr|] == hdr;
    assert LoopInvariant(hd.0, hd.1, BodyStart(post, h), watermark, restoreFont, h, hdr, []);
    RunKeepsInvariant(hd.0, hd.1, BodyStart(post, h), ContentLines(post, h), watermark, restoreFont, h, hdr, []);
    assert [] + ContentLines(post, h) == ContentLines(post, h);
  }

  // ---------------------------------------------------------------------------
  // The finished document

  /** Placement `j` of page `k` is a body line of the finished document `pages`:
      past the page's header or watermark, and not the footer. */
  predicate IsBodyIndex(pages: seq<Page>, watermark: bool, k: int, j: int)
  {
    0 <= k < |pages| && Offset(watermark, k) <= j && j < |pages[k]| - (if k == |pages| - 1 then 1 else 0)
  }

  function Last(p: Page): Placement
    requires p != []
  {
    p[|p| - 1]
  }

  /** The footer is the last placement of the last page; nothing else changes. */
  lemma {:induction false} FooterOnLastPage(post: PostInfo, watermark: bool, restoreFont: bool, h: Host)
    ensures var b := Body(post, watermark, restoreFont, h).0.pages;
            var P := Layout(post, watermark, restoreFont, h).pages;
            && |P| == |b| > 0
            && P[..|P| - 1] == b[..|b| - 1]
            && P[|P| - 1] == b[|b| - 1] + [FooterPlacement(h)]
  {
    BodyIsPaginated(post, watermark, restoreFont, h);
  }

  lemma {:induction false} BodyPlacement(post: PostInfo, watermark: bool, restoreFont: bool, h: Host, k: int, j: int)
    requires var P := Layout(post, watermark, restoreFont, h).pages; 0 <= k < |P| && 0 <= j < |P[k]|
    ensures var b := Body(post, watermark, restoreFont, h).0.pages;
            var P := Layout(post, watermark, restoreFont, h).pages;
            && |P| == |b|
            && (j < |b[k]| ==> P[k][j] == b[k][j])
            && (j == |b[k]| ==> k == |P| - 1 && P[k][j] == FooterPlacement(h))
  {
    FooterOnLastPage(post, watermark, restoreFont, h);
    var b := Body(post, watermark, restoreFont, h).0.pages;
    var P := Layout(post, watermark, restoreFont, h).pages;
    if k < |P| - 1 {
      assert P[k] == P[..|P| - 1][k] == b[..|b| - 1][k] == b[k];
    }
  }

  /** Page 0 starts with the header block: the watermark when it is on, then
      the title at (margin, margin), author at margin + 10n + 10 for n title
      lines, date 8 below, category 15 below that and tags 8 further. */
  lemma {:induction false} HeaderPositions(post: PostInfo, watermark: bool, restoreFont: bool, h: Host)
    ensures var P := Layout(post, watermark, restoreFont, h).pages;
            var hdr := HeaderPlacements(post, watermark, h);
            P != [] && |P[0]| >= |hdr| && P[0][..|hdr|] == hdr
  {
    FooterOnLastPage(post, watermark, restoreFont, h);
    BodyIsPaginated(post, watermark, restoreFont, h);
    var b := Body(post, watermark, restoreFont, h).0.pages;
    var P := Layout(post, watermark, restoreFont, h).pages;
    var hdr := HeaderPlacements(post, watermark, h);
    if |P| == 1 {
      assert P[0] == b[0] + [FooterPlacement(h)];
      assert P[0][..|hdr|] == b[0][..|hdr|];
    } else {
      assert P[0] == P[..|P| - 1][0] == b[..|b| - 1][0] == b[0];
    }
  }

  /** What placement `j` of page `k` of the finished document is: a header
      item on page 0, the watermark at the head of a later page, a body line,
      or the footer. */
  lemma {:induction false} PlacementKind(post: PostInfo, watermark: bool, restoreFont: bool, h: Host, k: int, j: int)
    requires var P := Layout(post, watermark, restoreFont, h).pages; 0 <= k < |P| && 0 <= j < |P[k]|
    ensures var P := Layout(post, watermark, restoreFont, h).pages;
            var hdr := HeaderPlacements(post, watermark, h);
            var off := Offset(watermark, k);
            && (j < off || IsBodyIndex(P, watermark, k, j) || (k == |P| - 1 && j == |P[k]| - 1))
            && (k == 0 && j < off ==> P[k][j] == hdr[j])
            && (k > 0 && j < off ==> watermark && j == 0 && P[k][j] == WatermarkPlacement(h))
            && (IsBodyIndex(P, watermark, k, j) ==>
                  && IsBodyLine(P[k][j], LineY(Top(k, BodyStart(post, h)), j - off), BodyFont(watermark, restoreFont, k))
                  && ((k == 0 || j > off) ==> P[k][j].y <= Limit(h)))
            && (k == |P| - 1 && j == |P[k]| - 1 ==> off <= j && P[k][j] == FooterPlacement(h))
  {
    BodyIsPaginated(post, watermark, restoreFont, h);
    HeaderPositions(post, watermark, restoreFont, h);
    BodyPlacement(post, watermark, restoreFont, h, k, j);
    var b := Body(post, watermark, restoreFont, h);
    var P := Layout(post, watermark, restoreFont, h).pages;
    var hdr := HeaderPlacements(post, watermark, h);
    assert PageAt(b.0.pages, k, BodyStart(post, h), watermark, restoreFont, h);
    if k == 0 && j < |hdr| {
      assert P[0][j] == P[0][..|hdr|][j];
    }
  }

  /** Every body line is drawn at the left margin and, as long as the page is
      at least two margins high, between the top margin and the bottom limit;
      the first line of an added page is at the top margin, and consecutive
      lines on a page are one line advance apart. */
  lemma {:induction false} BodyWithinMargins(post: PostInfo, watermark: bool, restoreFont: bool, h: Host)
    requires Margin <= Limit(h)
    ensures var P := Layout(post, watermark, restoreFont, h).pages;
            forall k, j :: IsBodyIndex(P, watermark, k, j) ==>
              P[k][j].x == Margin && Margin <= P[k][j].y <= Limit(h) &&
              (k > 0 && j == Offset(watermark, k) ==> P[k][j].y == Margin) &&
              (IsBodyIndex(P, watermark, k, j + 1) ==> P[k][j + 1].y == P[k][j].y + LineAdvance)
  {
    var P := Layout(post, watermark, restoreFont, h).pages;
    forall k, j | IsBodyIndex(P, watermark, k, j)
      ensures P[k][j].x == Margin && Margin <= P[k][j].y <= Limit(h)
      ensures k > 0 && j == Offset(watermark, k) ==> P[k][j].y == Margin
      ensures IsBodyIndex(P, watermark, k, j + 1) ==> P[k][j + 1].y == P[k][j].y + LineAdvance
    {
      PlacementKind(post, watermark, restoreFont, h, k, j);
      if IsBodyIndex(P, watermark, k, j + 1) {
        PlacementKind(post, watermark, restoreFont, h, k, j + 1);
      }
    }
  }


  /** The break rule: every page but the last was left because the cursor
      after its last line was past the bottom limit (on page 0 this can be
      the body start itself, when the header fills the page). */
  lemma {:induction false} BreakRule(post: PostInfo, watermark: bool, restoreFont: bool, h: Host)
    ensures var P := Layout(post, watermark, restoreFont, h).pages;
            forall k :: 0 <= k < |P| - 1 ==>
              if |P[k]| > Offset(watermark, k) then Last(P[k]).y + LineAdvance > Limit(h)
              else k == 0 && BodyStart(post, h) > Limit(h)
  {
    BodyIsPaginated(post, watermark, restoreFont, h);
    FooterOnLastPage(post, watermark, restoreFont, h);
    var b := Body(post, watermark, restoreFont, h);
    var P := Layout(post, watermark, restoreFont, h).pages;
    var y0 := BodyStart(post, h);
    forall k: int | 0 <= k < |P| - 1
      ensures |P[k]| > Offset(watermark, k) ==> Last(P[k]).y + LineAdvance > Limit(h)
      ensures |P[k]| <= Offset(watermark, k) ==> k == 0 && y0 > Limit(h)
    {
      assert P[k] == P[..|P| - 1][k] == b.0.pages[k];
      assert PageAt(b.0.pages, k, y0, watermark, restoreFont, h);
    }
  }


  /** With the watermark on, each page carries it exactly once, as its first
      placement; with it off, no page carries it. */
  lemma {:induction false} OneWatermarkPerPage(post: PostInfo, watermark: bool, restoreFont: bool, h: Host)
    ensures var P := Layout(post, watermark, restoreFont, h).pages;
            forall k, j :: 0 <= k < |P| && 0 <= j < |P[k]| ==>
              (P[k][j] == WatermarkPlacement(h) <==> watermark && j == 0)
  {
    var P := Layout(post, watermark, restoreFont, h).pages;
    forall k, j | 0 <= k < |P| && 0 <= j < |P[k]|
      ensures P[k][j] == WatermarkPlacement(h) <==> watermark && j == 0
    {
      PlacementKind(post, watermark, restoreFont, h, k, j);
    }
  }


  /** The footer appears exactly once: as the last placement of the last page. */
  lemma {:induction false} FooterOnce(post: PostInfo, watermark: bool, restoreFont: bool, h: Host)
    ensures var P := Layout(post, watermark, restoreFont, h).pages;
            forall k, j :: 0 <= k < |P| && 0 <= j < |P[k]| ==>
              (P[k][j] == FooterPlacement(h) <==> k == |P| - 1 && j == |P[k]| - 1)
  {
    var P := Layout(post, watermark, restoreFont, h).pages;
    forall k, j | 0 <= k < |P| && 0 <= j < |P[k]|
      ensures P[k][j] == FooterPlacement(h) <==> k == |P| - 1 && j == |P[k]| - 1
    {
      PlacementKind(post, watermark, restoreFont, h, k, j);
    }
  }


  /** Removing the footer and reading the body lines page by page gives back
      the wrapped content, in order, without loss or repetition. */
  lemma {:induction false} ReadingOrder(post: PostInfo, watermark: bool, restoreFont: bool, h: Host)
    ensures var P := Layout(post, watermark, restoreFont, h).pages;
            && P != [] && P[|P| - 1] != []
            && BodyText(P[..|P| - 1] + [P[|P| - 1][..|P[|P| - 1]| - 1]], watermark) == ContentLines(post, h)
  {
    BodyIsPaginated(post, watermark, restoreFont, h);
    FooterOnLastPage(post, watermark, restoreFont, h);
    var b := Body(post, watermark, restoreFont, h).0.pages;
    var P := Layout(post, watermark, restoreFont, h).pages;
    var n := |P| - 1;
    assert P[n][..|P[n]| - 1] == b[n];
    assert P[..n] + [P[n][..|P[n]| - 1]] == b[..n] + [b[n]] == b;
  }

  /** As written, after a page break with the watermark on, the body text is
      drawn at the watermark's 50pt instead of 11pt; its colour is black. */
  lemma {:induction false} BodyFontAsWritten(post: PostInfo, watermark: bool, h: Host)
    ensures var P := Layout(post, watermark, false, h).pages;
            forall k, j :: IsBodyIndex(P, watermark, k, j) ==>
              P[k][j].fontSize == (if watermark && k > 0 then 50 else 11) && P[k][j].color == Black
  {
    var P := Layout(post, watermark, false, h).pages;
    forall k, j | IsBodyIndex(P, watermark, k, j)
      ensures P[k][j].fontSize == (if watermark && k > 0 then 50 else 11) && P[k][j].color == Black
    {
      PlacementKind(post, watermark, false, h, k, j);
    }
  }


  /** Corrected: every body line is drawn at 11pt in black, on every page. */
  lemma {:induction false} BodyFontCorrected(post: PostInfo, watermark: bool, h: Host)
    ensures var P := Layout(post, watermark, true, h).pages;
            forall k, j :: IsBodyIndex(P, watermark, k, j) ==> P[k][j].fontSize == 11 && P[k][j].color == Black
  {
    var P := Layout(post, watermark, true, h).pages;
    forall k, j | IsBodyIndex(P, watermark, k, j)
      ensures P[k][j].fontSize == 11 && P[k][j].color == Black
    {
      PlacementKind(post, watermark, true, h, k, j);
    }
  }


  /** The number of page breaks the loop makes over `lines` from cursor `y`,
      computed from the cursor alone. */
  function Breaks(y: real, lines: seq<string>, h: Host): nat
    decreases |lines|
  {
    if lines == [] then 0
    else if y > Limit(h) then 1 + Breaks(Margin + LineAdvance, lines[1..], h)
    else Breaks(y + LineAdvance, lines[1..], h)
  }

  lemma {:induction false} RunPageCount(d: DocState, y: real, lines: seq<string>, watermark: bool, restoreFont: bool, h: Host)
    requires d.pages != []
    ensures |Run(d, y, lines, watermark, restoreFont, h).0.pages| == |d.pages| + Breaks(y, lines, h)
    decreases |lines|
  {
    if lines != [] {
      var s := Step(d, y, lines[0], watermark, restoreFont, h);
      RunPageCount(s.0, s.1, lines[1..], watermark, restoreFont, h);
    }
  }

  /** The document has one page plus one per break. */
  lemma {:induction false} PageCount(post: PostInfo, watermark: bool, restoreFont: bool, h: Host)
    ensures |Layout(post, watermark, restoreFont, h).pages| == 1 + Breaks(BodyStart(post, h), ContentLines(post, h), h)
  {
    HeaderShape(post, watermark, h);
    var hd := Header(post, watermark, h);
    RunPageCount(hd.0, hd.1, ContentLines(post, h), watermark, restoreFont, h);
    FooterOnLastPage(post, watermark, restoreFont, h);
  }

  /** A page 50 units high, a wrapper that keeps each text on one line, and
      the identity as date formatting. */
  const ShortPageHost := Host(210.0, 50.0, (s: string, w: real, n: nat, wt: Weight) => [s], (s: string) => s)

  const OneLinePost := PostInfo("T", "A", "D", "C", [], "x")

  /** On that page the body starts at 91, past the limit 30, so the single
      body line goes to page 2: drawn at 50pt as written, at 11pt corrected. */
  lemma OversizedLineAfterBreak()
    ensures var P := Layout(OneLinePost, true, false, ShortPageHost).pages;
            |P| == 2 && IsBodyIndex(P, true, 1, 1) && P[1][1].lines == ["x"] && P[1][1].fontSize == 50
    ensures var P := Layout(OneLinePost, true, true, ShortPageHost).pages;
            |P| == 2 && IsBodyIndex(P, true, 1, 1) && P[1][1].lines == ["x"] && P[1][1].fontSize == 11
  {
    var h, post := ShortPageHost, OneLinePost;
    assert TitleLines(post, h) == ["T"];
    assert ContentLines(post, h) == ["x"];
    HeaderShape(post, true, h);
    var hd := Header(post, true, h);
    assert hd.1 == 91.0;
    StepPages(hd.0, hd.1, "x", true, false, h);
    StepPages(hd.0, hd.1, "x", true, true, h);
    assert Body(post, true, false, h) == Step(hd.0, hd.1, "x", true, false, h);
    assert Body(post, true, true, h) == Step(hd.0, hd.1, "x", true, true, h);
    FooterOnLastPage(post, true, false, h);
    FooterOnLastPage(post, true, true, h);
  }
}

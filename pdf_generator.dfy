/** The blog-post PDF renderer (`generateBlogPDF`).

    A document is a sequence of pages, each an ordered list of text placements,
    plus the drawing state a jsPDF document carries between calls (font size,
    text colour, font weight). `PdfDoc` is that document as an object whose
    methods change it in place; `DocState` and the `With…` functions are the same
    operations on values, and they specify the methods. `Layout` is the whole
    rendering as a function of its inputs; `GenerateBlogPdf` performs it step by
    step and is proved to produce exactly `Layout`; module `PdfPagination`
    states what the layout promises: the header positions, the page-break rule,
    the per-page bounds, reading order, one watermark per page and one footer. */
module PdfGenerator {
  import opened Text

  datatype Color = Rgb(r: nat, g: nat, b: nat)

  const Black := Rgb(0, 0, 0)
  const LightGrey := Rgb(200, 200, 200)
  const Grey := Rgb(128, 128, 128)

  datatype Weight = Normal | Bold
  datatype Align = Left | Center

  /** One `doc.text(...)` call: the lines drawn, the anchor point, and the
      font size, colour and weight in force when it was made. */
  datatype Placement = Placement(
    lines: seq<string>, x: real, y: real,
    fontSize: nat, color: Color, weight: Weight,
    align: Align, angle: int)

  type Page = seq<Placement>

  datatype DocState = DocState(pages: seq<Page>, fontSize: nat, color: Color, weight: Weight)

  /** A new jsPDF document: one empty page, jsPDF's default 16pt black normal text. */
  const NewDoc := DocState([[]], 16, Black, Normal)

  /** What the environment supplies: the page size reported by jsPDF, its text
      wrapper `splitTextToSize` (text, maximum width, font size, weight) and the
      browser's locale date formatting. */
  datatype Host = Host(
    pageWidth: real, pageHeight: real,
    wrap: (string, real, nat, Weight) -> seq<string>,
    localeDate: string -> string)

  datatype PostInfo = PostInfo(
    title: string, authorName: string, createdAt: string,
    category: string, tags: seq<string>, content: string)

  const Margin: real := 20.0
  const LineAdvance: real := 6.0
  const WatermarkText := "DEMO"
  const FooterText := "Generated from Personal Blog Site"

  /** The lowest cursor position at which a body line may still be drawn. */
  function Limit(h: Host): real { h.pageHeight - Margin }

  function MaxWidth(h: Host): real { h.pageWidth - Margin * 2.0 }

  // ---------------------------------------------------------------------------
  // Document operations on values

  function WithPage(d: DocState): (r: DocState)
    ensures r.pages == d.pages + [[]]
    ensures r.fontSize == d.fontSize && r.color == d.color && r.weight == d.weight
  {
    d.(pages := d.pages + [[]])
  }

  function WithFontSize(d: DocState, n: nat): (r: DocState)
    ensures r.pages == d.pages && r.fontSize == n && r.color == d.color && r.weight == d.weight
  {
    d.(fontSize := n)
  }

  function WithColor(d: DocState, c: Color): (r: DocState)
    ensures r.pages == d.pages && r.fontSize == d.fontSize && r.color == c && r.weight == d.weight
  {
    d.(color := c)
  }

  function WithWeight(d: DocState, w: Weight): (r: DocState)
    ensures r.pages == d.pages && r.fontSize == d.fontSize && r.color == d.color && r.weight == w
  {
    d.(weight := w)
  }

  /** Draws on the current (last) page with the current font and colour;
      the earlier pages and the drawing state are untouched. */
  function WithText(d: DocState, lines: seq<string>, x: real, y: real, align: Align, angle: int): (r: DocState)
    requires d.pages != []
    ensures |r.pages| == |d.pages|
    ensures r.pages[..|d.pages| - 1] == d.pages[..|d.pages| - 1]
    ensures r.pages[|d.pages| - 1] ==
            d.pages[|d.pages| - 1] + [Placement(lines, x, y, d.fontSize, d.color, d.weight, align, angle)]
    ensures r.fontSize == d.fontSize && r.color == d.color && r.weight == d.weight
  {
    var last := |d.pages| - 1;
    d.(pages := d.pages[last := d.pages[last] + [Placement(lines, x, y, d.fontSize, d.color, d.weight, align, angle)]])
  }

  /** The jsPDF document object, changed in place by its methods. */
  class PdfDoc {
    var pages: seq<Page>
    var fontSize: nat
    var color: Color
    var weight: Weight

    function State(): DocState
      reads this
    {
      DocState(pages, fontSize, color, weight)
    }

    constructor ()
      ensures State() == NewDoc
    {
      pages := [[]];
      fontSize := 16;
      color := Black;
      weight := Normal;
    }

    method AddPage()
      modifies this
      ensures State() == WithPage(old(State()))
    {
      pages := pages + [[]];
    }

    method SetFontSize(n: nat)
      modifies this
      ensures State() == WithFontSize(old(State()), n)
    {
      fontSize := n;
    }

    method SetTextColor(c: Color)
      modifies this
      ensures State() == WithColor(old(State()), c)
    {
      color := c;
    }

    method SetFont(w: Weight)
      modifies this
      ensures State() == WithWeight(old(State()), w)
    {
      weight := w;
    }

    method Text(lines: seq<string>, x: real, y: real, align: Align, angle: int)
      requires pages != []
      modifies this
      ensures State() == WithText(old(State()), lines, x, y, align, angle)
    {
      var last := |pages| - 1;
      pages := pages[last := pages[last] + [Placement(lines, x, y, fontSize, color, weight, align, angle)]];
    }
  }

  // ---------------------------------------------------------------------------
  // The rendering as a function

  /** The diagonal "DEMO" stamp as it appears on every page. */
  function WatermarkPlacement(h: Host): Placement
  {
    Placement([WatermarkText], h.pageWidth / 2.0, h.pageHeight / 2.0, 50, LightGrey, Normal, Center, 45)
  }

  function FooterPlacement(h: Host): Placement
  {
    Placement([FooterText], Margin, h.pageHeight - 10.0, 8, Grey, Normal, Left, 0)
  }

  /** `setTextColor(200,200,200)`, `setFontSize(50)`, `text("DEMO", …)`. */
  function Stamp(d: DocState, h: Host): (r: DocState)
    requires d.pages != []
    ensures |r.pages| == |d.pages| && r.fontSize == 50 && r.color == LightGrey && r.weight == d.weight
  {
    WithText(WithFontSize(WithColor(d, LightGrey), 50), [WatermarkText], h.pageWidth / 2.0, h.pageHeight / 2.0, Center, 45)
  }

  function TitleLines(post: PostInfo, h: Host): seq<string>
  {
    h.wrap(post.title, MaxWidth(h), 20, Bold)
  }

  function ContentLines(post: PostInfo, h: Host): seq<string>
  {
    h.wrap(post.content, MaxWidth(h), 11, Normal)
  }

  function CategoryLine(post: PostInfo): string { "Category: " + post.category }

  function TagsLine(post: PostInfo): string { "Tags: " + Join(post.tags, ", ") }

  /** The watermark (when on) and the title: the state after drawing the
      title and the cursor below it. */
  function TitleBlock(post: PostInfo, watermark: bool, h: Host): (r: (DocState, real))
    ensures |r.0.pages| == 1 && r.0.color == Black
  {
    var d0 := if watermark then Stamp(NewDoc, h) else NewDoc;
    var d1 := WithWeight(WithFontSize(WithColor(d0, Black), 20), Bold);
    var titleLines := TitleLines(post, h);
    (WithText(d1, titleLines, Margin, Margin, Left, 0), Margin + |titleLines| as real * 10.0 + 10.0)
  }

  /** Author, date, category and tags below the title at cursor `y`, then the
      body font size; the cursor returned is where the body starts. */
  function Byline(d: DocState, y: real, post: PostInfo, h: Host): (r: (DocState, real))
    requires d.pages != []
    ensures |r.0.pages| == |d.pages|
    ensures r.0.fontSize == 11 && r.0.color == d.color && r.0.weight == Normal
  {
    var d3 := WithWeight(WithFontSize(d, 12), Normal);
    var d4 := WithText(d3, ["By " + post.authorName], Margin, y, Left, 0);
    var d5 := WithText(d4, ["Published: " + h.localeDate(post.createdAt)], Margin, y + 8.0, Left, 0);
    var d6 := WithText(d5, [CategoryLine(post)], Margin, y + 23.0, Left, 0);
    var d7 := WithText(d6, [TagsLine(post)], Margin, y + 31.0, Left, 0);
    (WithFontSize(d7, 11), y + 51.0)
  }

  /** The first page before any body text, and the cursor where the body starts. */
  function Header(post: PostInfo, watermark: bool, h: Host): (r: (DocState, real))
    ensures |r.0.pages| == 1
    ensures r.0.fontSize == 11 && r.0.color == Black && r.0.weight == Normal
  {
    var t := TitleBlock(post, watermark, h);
    Byline(t.0, t.1, post, h)
  }

  /** What a page break does: `addPage()` and, with the watermark on, stamp the
      new page and reset the colour to black. As written, the font size is left
      at the stamp's 50; `restoreFont` is the corrected behaviour, which sets the
      body size 11 again. */
  function BreakPage(d: DocState, watermark: bool, restoreFont: bool, h: Host): (r: DocState)
    ensures |r.pages| == |d.pages| + 1
    ensures r.pages[..|d.pages|] == d.pages
  {
    var d1 := WithPage(d);
    if watermark then
      var d2 := WithColor(Stamp(d1, h), Black);
      if restoreFont then WithFontSize(d2, 11) else d2
    else d1
  }

  /** One iteration of the body loop: break first when the cursor is past the
      limit, then draw the line at the cursor and advance it by 6. */
  function Step(d: DocState, y: real, line: string, watermark: bool, restoreFont: bool, h: Host): (r: (DocState, real))
    requires d.pages != []
    ensures |r.0.pages| == |d.pages| + (if y > Limit(h) then 1 else 0)
    ensures r.1 == (if y > Limit(h) then Margin else y) + LineAdvance
  {
    if y > Limit(h) then
      (WithText(BreakPage(d, watermark, restoreFont, h), [line], Margin, Margin, Left, 0), Margin + LineAdvance)
    else
      (WithText(d, [line], Margin, y, Left, 0), y + LineAdvance)
  }

  /** The body loop over the remaining lines, from state `d` and cursor `y`. */
  function Run(d: DocState, y: real, lines: seq<string>, watermark: bool, restoreFont: bool, h: Host): (r: (DocState, real))
    requires d.pages != []
    ensures |r.0.pages| >= |d.pages|
    decreases |lines|
  {
    if lines == [] then (d, y)
    else
      var s := Step(d, y, lines[0], watermark, restoreFont, h);
      Run(s.0, s.1, lines[1..], watermark, restoreFont, h)
  }

  /** The document after the body loop, before the footer. */
  function Body(post: PostInfo, watermark: bool, restoreFont: bool, h: Host): (r: (DocState, real))
  {
    var hd := Header(post, watermark, h);
    Run(hd.0, hd.1, ContentLines(post, h), watermark, restoreFont, h)
  }

  function WithFooter(d: DocState, h: Host): DocState
    requires d.pages != []
  {
    WithText(WithColor(WithFontSize(d, 8), Grey), [FooterText], Margin, h.pageHeight - 10.0, Left, 0)
  }

  /** The finished document. */
  function Layout(post: PostInfo, watermark: bool, restoreFont: bool, h: Host): DocState
  {
    WithFooter(Body(post, watermark, restoreFont, h).0, h)
  }

  // ---------------------------------------------------------------------------
  // The rendering, step by step

  /** `generateBlogPDF(blogPost, watermark)` as the source writes it. */
  method GenerateBlogPdf(post: PostInfo, watermark: bool, host: Host) returns (doc: PdfDoc)
    ensures fresh(doc)
    ensures doc.State() == Layout(post, watermark, false, host)
  {
    doc := Render(post, watermark, false, host);
  }

  /** The corrected renderer: identical, except that a watermarked page break
      restores the body font size. */
  method GenerateBlogPdfCorrected(post: PostInfo, watermark: bool, host: Host) returns (doc: PdfDoc)
    ensures fresh(doc)
    ensures doc.State() == Layout(post, watermark, true, host)
  {
    doc := Render(post, watermark, true, host);
  }

  method Render(post: PostInfo, watermark: bool, restoreFont: bool, host: Host) returns (doc: PdfDoc)
    ensures fresh(doc)
    ensures doc.State() == Layout(post, watermark, restoreFont, host)
  {
    doc := new PdfDoc();
    var yPosition := DrawHeader(doc, post, watermark, host);
    var contentLines := host.wrap(post.content, host.pageWidth - Margin * 2.0, doc.fontSize, doc.weight);
    assert contentLines == ContentLines(post, host);
    yPosition := DrawBody(doc, yPosition, contentLines, watermark, restoreFont, host);
    ghost var body := Body(post, watermark, restoreFont, host);
    assert doc.State() == body.0;
    DrawFooter(doc, host);
  }

  /** The footer line on the last page. */
  method DrawFooter(doc: PdfDoc, host: Host)
    requires doc.pages != []
    modifies doc
    ensures doc.State() == WithFooter(old(doc.State()), host)
  {
    doc.SetFontSize(8);
    doc.SetTextColor(Grey);
    doc.Text([FooterText], Margin, host.pageHeight - 10.0, Left, 0);
  }

  /** The header part of `generateBlogPDF`, up to `setFontSize(11)`. */
  method DrawHeader(doc: PdfDoc, post: PostInfo, watermark: bool, host: Host) returns (yPosition: real)
    requires doc.State() == NewDoc
    modifies doc
    ensures (doc.State(), yPosition) == Header(post, watermark, host)
  {
    yPosition := DrawTitle(doc, post, watermark, host);
    yPosition := DrawByline(doc, yPosition, post, host);
  }

  /** Author, date, category and tags. */
  method DrawByline(doc: PdfDoc, y: real, post: PostInfo, host: Host) returns (yPosition: real)
    requires doc.pages != []
    modifies doc
    ensures (doc.State(), yPosition) == Byline(old(doc.State()), y, post, host)
  {
    var margin := Margin;
    yPosition := y;
    doc.SetFontSize(12);
    doc.SetFont(Normal);
    doc.Text(["By " + post.authorName], margin, yPosition, Left, 0);
    yPosition := yPosition + 8.0;
    doc.Text(["Published: " + host.localeDate(post.createdAt)], margin, yPosition, Left, 0);
    yPosition := yPosition + 15.0;

    doc.Text(["Category: " + post.category], margin, yPosition, Left, 0);
    yPosition := yPosition + 8.0;
    doc.Text(["Tags: " + Join(post.tags, ", ")], margin, yPosition, Left, 0);
    yPosition := yPosition + 20.0;

    doc.SetFontSize(11);
  }

  /** The first-page watermark and the title. */
  method DrawTitle(doc: PdfDoc, post: PostInfo, watermark: bool, host: Host) returns (yPosition: real)
    requires doc.State() == NewDoc
    modifies doc
    ensures (doc.State(), yPosition) == TitleBlock(post, watermark, host)
  {
    var pageWidth := host.pageWidth;
    var pageHeight := host.pageHeight;
    var margin := Margin;
    var maxWidth := pageWidth - margin * 2.0;
    yPosition := margin;

    if watermark {
      doc.SetTextColor(LightGrey);
      doc.SetFontSize(50);
      doc.Text([WatermarkText], pageWidth / 2.0, pageHeight / 2.0, Center, 45);
    }
    doc.SetTextColor(Black);

    doc.SetFontSize(20);
    doc.SetFont(Bold);
    var titleLines := host.wrap(post.title, maxWidth, doc.fontSize, doc.weight);
    doc.Text(titleLines, margin, yPosition, Left, 0);
    yPosition := yPosition + |titleLines| as real * 10.0 + 10.0;
  }

  /** The body loop of `generateBlogPDF`. */
  method DrawBody(doc: PdfDoc, y: real, contentLines: seq<string>, watermark: bool, restoreFont: bool, host: Host)
    returns (yPosition: real)
    requires doc.pages != []
    modifies doc
    ensures doc.pages != []
    ensures (doc.State(), yPosition) == Run(old(doc.State()), y, contentLines, watermark, restoreFont, host)
  {
    yPosition := y;
    for i := 0 to |contentLines|
      invariant doc.pages != []
      invariant Run(doc.State(), yPosition, contentLines[i..], watermark, restoreFont, host)
             == Run(old(doc.State()), y, contentLines, watermark, restoreFont, host)
    {
      yPosition := DrawLine(doc, yPosition, contentLines[i], watermark, restoreFont, host);
      assert contentLines[i..][1..] == contentLines[i + 1..];
    }
  }

  /** One iteration of the body loop. */
  method DrawLine(doc: PdfDoc, y: real, line: string, watermark: bool, restoreFont: bool, host: Host)
    returns (yPosition: real)
    requires doc.pages != []
    modifies doc
    ensures doc.pages != []
    ensures (doc.State(), yPosition) == Step(old(doc.State()), y, line, watermark, restoreFont, host)
  {
    var margin := Margin;
    yPosition := y;
    if yPosition > host.pageHeight - margin {
      NewPage(doc, watermark, restoreFont, host);
      yPosition := margin;
    }
    doc.Text([line], margin, yPosition, Left, 0);
    yPosition := yPosition + 6.0;
  }

  /** The page break inside the body loop. */
  method NewPage(doc: PdfDoc, watermark: bool, restoreFont: bool, host: Host)
    modifies doc
    ensures doc.State() == BreakPage(old(doc.State()), watermark, restoreFont, host)
  {
    doc.AddPage();
    if watermark {
      doc.SetTextColor(LightGrey);
      doc.SetFontSize(50);
      doc.Text([WatermarkText], host.pageWidth / 2.0, host.pageHeight / 2.0, Center, 45);
      doc.SetTextColor(Black);
      if restoreFont {
        doc.SetFontSize(11);
      }
    }
  }
}

/** The PDF button: which buttons a variant shows, and the busy flag, file
    name and action dispatch of one click. Saving and opening the file are
    recorded as the documents handed to them; a failure of the PDF library is
    the input `generationFails`. */
module PdfDownloadButton {
  import opened PdfGenerator

  datatype Action = Download | Preview

  /** The `variant` prop; `Both` is its default. */
  datatype Variant = DownloadOnly | PreviewOnly | Both

  const DefaultVariant := Both

  datatype Button = Button(action: Action, caption: string, disabled: bool)

  const GeneratingLabel := "Generating..."

  /** The buttons a variant renders, in order; while generating, every button
      is disabled and reads "Generating...". */
  function Buttons(v: Variant, isGenerating: bool): (r: seq<Button>)
    ensures v == DownloadOnly ==> |r| == 1 && r[0].action == Download
    ensures v == PreviewOnly ==> |r| == 1 && r[0].action == Preview
    ensures v == Both ==> |r| == 2 && r[0].action == Preview && r[1].action == Download
    ensures forall i :: 0 <= i < |r| ==> r[i].disabled == isGenerating
    ensures forall i :: 0 <= i < |r| ==> (r[i].caption == GeneratingLabel <==> isGenerating)
  {
    var caption := (s: string) => if isGenerating then GeneratingLabel else s;
    match v
    case DownloadOnly => [Button(Download, caption("Download PDF"), isGenerating)]
    case PreviewOnly => [Button(Preview, caption("Preview PDF"), isGenerating)]
    case Both => [Button(Preview, caption("Preview"), isGenerating), Button(Download, caption("Download"), isGenerating)]
  }

  /** `${slug}.pdf`. */
  function Filename(slug: string): (r: string)
    ensures |r| == |slug| + 4 && r[..|slug|] == slug && r[|slug|..] == ".pdf"
  {
    slug + ".pdf"
  }

  const AlertMessage := "Failed to generate PDF. Please try again."

  /** What one click hands to the outside: a document saved under a file
      name, a document opened in a new tab, or an alert. */
  datatype Effect = Saved(doc: DocState, filename: string) | Opened(doc: DocState) | Alerted(message: string)

  /** The effect of one click: the alert when the PDF library fails,
      otherwise the document goes to the chosen action only. */
  function ClickEffect(action: Action, doc: DocState, filename: string, generationFails: bool): (e: Effect)
    ensures e.Alerted? <==> generationFails
    ensures e.Alerted? ==> e.message == AlertMessage
    ensures !generationFails ==> e.doc == doc
    ensures e.Saved? <==> !generationFails && action == Download
    ensures e.Saved? ==> e.filename == filename
  {
    if generationFails then Alerted(AlertMessage)
    else if action == Download then Saved(doc, filename)
    else Opened(doc)
  }

  class PdfButton {
    const post: PostInfo
    const slug: string
    var isGenerating: bool
    /** Every value written to `isGenerating`, in order. */
    ghost var generatingLog: seq<bool>
    /** The calls of `downloadPDF`, `openPDFInNewTab` and `alert`, in order. */
    var effects: seq<Effect>

    constructor (post: PostInfo, slug: string)
      ensures this.post == post && this.slug == slug
      ensures !isGenerating && generatingLog == [] && effects == []
    {
      this.post := post;
      this.slug := slug;
      isGenerating := false;
      generatingLog := [];
      effects := [];
    }

    /** `handleGeneratePDF(action)`: the watermarked document goes to exactly
      one of save and open; a failure only raises the alert; the busy flag is
      set on entry and cleared on every outcome. */
    method HandleGeneratePdf(action: Action, host: Host, generationFails: bool)
      modifies this
      ensures !isGenerating && generatingLog == old(generatingLog) + [true, false]
      ensures effects == old(effects) + [ClickEffect(action, Layout(post, true, true, host), Filename(slug), generationFails)]
    {
      isGenerating := true;
      generatingLog := generatingLog + [true];
      if generationFails {
        effects := effects + [Alerted(AlertMessage)];
      } else {
        var doc := GenerateBlogPdfCorrected(post, true, host);
        var filename := Filename(slug);
        if action == Download {
          effects := effects + [Saved(doc.State(), filename)];
        } else {
          effects := effects + [Opened(doc.State())];
        }
      }
      isGenerating := false;
      generatingLog := generatingLog + [false];
    }
  }
}

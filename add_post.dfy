/** The add-post page: the tag list editor, submitting the form, and the PDF
    preview of the unsaved post. The request to create the post and the PDF
    library's failure are inputs (`createFails`, `generationFails`);
    `createBlog` calls are recorded with the data and token they received. */
module AddPost {
  import opened Wrappers
  import opened Text
  import opened Seqs
  import opened Storage
  import opened Api
  import opened Validations
  import opened CreateRoute
  import opened PdfGenerator
  import opened PdfDownloadButton

  // ---------------------------------------------------------------------------
  // Tags

  /** `tagInput.trim() && !tags.includes(tagInput.trim())`. */
  predicate CanAdd(tags: seq<string>, input: string)
  {
    Trim(input) != "" && Trim(input) !in tags
  }

  /** The list after `addTag`. */
  function AddedTags(tags: seq<string>, input: string): seq<string>
  {
    if CanAdd(tags, input) then tags + [Trim(input)] else tags
  }

  /** The list after `removeTag(t)`. */
  function RemovedTags(tags: seq<string>, t: string): seq<string>
  {
    Filter((x: string) => x != t, tags)
  }

  /** Adding appends the trimmed input exactly when it is non-empty and new;
      otherwise the list is unchanged. */
  lemma AddTagRule(tags: seq<string>, input: string)
    ensures CanAdd(tags, input) ==> AddedTags(tags, input) == tags + [Trim(input)]
    ensures !CanAdd(tags, input) ==> AddedTags(tags, input) == tags
    ensures Trim(input) != "" ==> Trim(input) in AddedTags(tags, input)
  {
  }

  /** Adding keeps the list free of duplicates. */
  lemma AddTagNoDuplicates(tags: seq<string>, input: string)
    requires NoDuplicates(tags)
    ensures NoDuplicates(AddedTags(tags, input))
  {
    var r := AddedTags(tags, input);
    if CanAdd(tags, input) {
      forall i, j | 0 <= i < j < |r| ensures r[i] != r[j] {
        if j == |tags| {
          assert r[i] == tags[i];
        }
      }
    }
  }

  /** Removing keeps exactly the other tags, in order. */
  lemma RemoveTagRule(tags: seq<string>, t: string)
    ensures forall x :: x in RemovedTags(tags, t) <==> x in tags && x != t
    ensures |RemovedTags(tags, t)| <= |tags|
    ensures t !in tags ==> RemovedTags(tags, t) == tags
  {
    var keep := (x: string) => x != t;
    forall x ensures x in Filter(keep, tags) <==> x in tags && keep(x) {
      FilterMembers(keep, tags, x);
    }
    if t !in tags {
      FilterKeepsAll(keep, tags);
    }
  }

  /** Removing a tag just added gives back the list before. */
  lemma AddThenRemove(tags: seq<string>, input: string)
    requires CanAdd(tags, input)
    ensures RemovedTags(AddedTags(tags, input), Trim(input)) == tags
  {
    var t := Trim(input);
    var keep := (x: string) => x != t;
    FilterConcat(keep, tags, [t]);
    FilterKeepsAll(keep, tags);
    assert Filter(keep, [t]) == [];
  }

  // ---------------------------------------------------------------------------
  // The PDF preview

  /** `v || d` for a watched field that may be undefined. */
  function OrDefault(v: Option<string>, d: string): (r: string)
    ensures v.Some? && v.value != "" ==> r == v.value
    ensures !(v.Some? && v.value != "") ==> r == d
  {
    if v.Some? && v.value != "" then v.value else d
  }

  /** The slug of the preview: the title lower-cased, with each run outside
      `[a-z0-9]` replaced by "-" and no trimming of edge hyphens. The
      fallback "untitled-post" is already such a slug, so it is used as it
      is (`PreviewSlugAsWritten`). */
  function PreviewSlug(title: Option<string>): string
  {
    if title.Some? && title.value != "" then Collapse(Lower(title.value), false) else "untitled-post"
  }

  /** The slug is `(title || "untitled-post").toLowerCase().replace(/[^a-z0-9]+/g, "-")`. */
  lemma PreviewSlugAsWritten(title: Option<string>)
    ensures PreviewSlug(title) == Collapse(Lower(OrDefault(title, "untitled-post")), false)
  {
    if !(title.Some? && title.value != "") {
      var s := "untitled-post";
      LowerIdentity(s);
      CollapseClean(s, false);
    }
  }

  /** The preview slug uses only `[a-z0-9-]` and never two hyphens in a row. */
  lemma PreviewSlugShape(title: Option<string>)
    ensures IsSlugText(PreviewSlug(title))
  {
    PreviewSlugAsWritten(title);
  }

  /** The route's slug is the preview slug with its edge hyphens dropped. */
  lemma PreviewSlugAndRouteSlug(title: string)
    requires title != ""
    ensures Slug(title) == DropEdgeHyphens(PreviewSlug(Some(title)))
  {
  }

  /** Unlike the route's slug, the preview slug keeps a trailing hyphen. */
  lemma PreviewSlugKeepsEdge()
    ensures PreviewSlug(Some("Hi!")) == "hi-"
    ensures Slug("Hi!") == "hi"
  {
    assert Lower("Hi!") == "hi!";
    assert Collapse("!", false) == "-" by {
      assert Collapse("", true) == "";
    }
    assert Collapse("i!", false) == "i-" by {
      assert "i!"[1..] == "!";
    }
    assert Collapse("hi!", false) == "hi-" by {
      assert "hi!"[1..] == "i!";
    }
    assert DropLeading("hi-") == "hi-";
    assert DropTrailing("hi-") == "hi";
  }

  /** The post the preview is rendered from. */
  datatype MockPost = MockPost(
    title: string, slug: string, content: string, summary: string, category: string,
    tags: seq<string>, createdAt: string, authorName: string)

  /** The mock post: each watched field or its fallback, the current tags,
      and the fixed author. */
  function MockPostOf(title: Option<string>, content: Option<string>, summary: Option<string>,
                      category: Option<string>, tags: seq<string>, isoNow: string): (m: MockPost)
    ensures m.title == OrDefault(title, "Untitled Post")
    ensures m.content == OrDefault(content, "No content provided")
    ensures m.summary == OrDefault(summary, "No summary provided")
    ensures m.category == OrDefault(category, "Uncategorized")
    ensures m.slug == PreviewSlug(title) && m.tags == tags
    ensures m.createdAt == isoNow && m.authorName == "John Developer"
  {
    MockPost(OrDefault(title, "Untitled Post"), PreviewSlug(title), OrDefault(content, "No content provided"),
             OrDefault(summary, "No summary provided"), OrDefault(category, "Uncategorized"),
             tags, isoNow, "John Developer")
  }

  /** The fields of a mock post the PDF generator reads. */
  function InfoOf(m: MockPost): PostInfo
  {
    PostInfo(m.title, m.authorName, m.createdAt, m.category, m.tags, m.content)
  }

  /** An untouched form previews with every fallback. */
  lemma EmptyFormFallbacks(tags: seq<string>, isoNow: string)
    ensures var m := MockPostOf(None, None, None, None, tags, isoNow);
      && m.title == "Untitled Post" && m.content == "No content provided"
      && m.summary == "No summary provided" && m.category == "Uncategorized"
      && m.slug == "untitled-post"
  {
  }

  /** The watermarked document of the mock post, laid out with the
      corrected body font. */
  function PreviewDoc(title: Option<string>, content: Option<string>, summary: Option<string>,
                      category: Option<string>, tags: seq<string>, isoNow: string, host: Host): DocState
  {
    Layout(InfoOf(MockPostOf(title, content, summary, category, tags, isoNow)), true, true, host)
  }

  /** The body of `generatePDF`'s `try`/`catch`: render the mock post with
      the watermark and hand it to the chosen action, or raise the alert. */
  method PreviewEffect(action: Action, title: Option<string>, content: Option<string>, summary: Option<string>,
                       category: Option<string>, tags: seq<string>, isoNow: string, host: Host, generationFails: bool)
    returns (effect: Effect)
    ensures effect == ClickEffect(action, PreviewDoc(title, content, summary, category, tags, isoNow, host),
                                  Filename(PreviewSlug(title)), generationFails)
  {
    if generationFails {
      effect := Alerted(AlertMessage);
    } else {
      var mock := MockPostOf(title, content, summary, category, tags, isoNow);
      var doc := GenerateBlogPdfCorrected(InfoOf(mock), true, host);
      var filename := Filename(mock.slug);
      if action == Download {
        effect := Saved(doc.State(), filename);
      } else {
        effect := Opened(doc.State());
      }
    }
  }

  // ---------------------------------------------------------------------------
  // The page

  const CreatedMessage := "Post created successfully!"
  const CreateFailedMessage := "Failed to create post. Please try again."

  class AddPostPage {
    const store: LocalStorage?
    var tags: seq<string>
    var tagInput: string
    /** The form's `tags` value, as `setValue("tags", …)` last set it. */
    var formTags: seq<string>
    var isSubmitting: bool
    var isGeneratingPdf: bool
    var error: string
    var success: string
    /** Every value written to the two busy flags, in order. */
    ghost var submittingLog: seq<bool>
    ghost var generatingLog: seq<bool>
    /** The `createBlog` calls: the data sent and the token. */
    var created: seq<(BlogPostData, string)>
    /** The calls of `downloadPDF`, `openPDFInNewTab` and `alert`, in order. */
    var effects: seq<Effect>

    constructor (store: LocalStorage?)
      ensures this.store == store
      ensures tags == [] && tagInput == "" && formTags == []
      ensures !isSubmitting && !isGeneratingPdf && error == "" && success == ""
      ensures submittingLog == [] && generatingLog == []
      ensures created == [] && effects == []
    {
      this.store := store;
      tags := [];
      tagInput := "";
      formTags := [];
      isSubmitting := false;
      isGeneratingPdf := false;
      error := "";
      success := "";
      submittingLog := [];
      generatingLog := [];
      created := [];
      effects := [];
    }

    /** `addTag()`: on success the list grows, the input is cleared and the
      form mirrors the list; otherwise nothing changes. */
    method AddTag()
      modifies this
      ensures tags == AddedTags(old(tags), old(tagInput))
      ensures CanAdd(old(tags), old(tagInput)) ==> tagInput == "" && formTags == tags
      ensures !CanAdd(old(tags), old(tagInput)) ==> tagInput == old(tagInput) && formTags == old(formTags)
      ensures isSubmitting == old(isSubmitting) && isGeneratingPdf == old(isGeneratingPdf)
      ensures error == old(error) && success == old(success) && created == old(created)
      ensures effects == old(effects) && submittingLog == old(submittingLog) && generatingLog == old(generatingLog)
    {
      var t := Trim(tagInput);
      if t != "" && t !in tags {
        var newTags := tags + [t];
        tags := newTags;
        formTags := newTags;
        tagInput := "";
      }
    }

    /** `removeTag(t)`: the list loses every copy of `t` and the form mirrors
      it. */
    method RemoveTag(t: string)
      modifies this
      ensures tags == RemovedTags(old(tags), t) && formTags == tags
      ensures tagInput == old(tagInput)
      ensures isSubmitting == old(isSubmitting) && isGeneratingPdf == old(isGeneratingPdf)
      ensures error == old(error) && success == old(success) && created == old(created)
      ensures effects == old(effects) && submittingLog == old(submittingLog) && generatingLog == old(generatingLog)
    {
      var newTags := Filter((x: string) => x != t, tags);
      tags := newTags;
      formTags := newTags;
    }

    /** `onSubmit(data)`: without a non-empty token `createBlog` is not called
      and the error is set; otherwise it is called once with the page's own
      tag list. The busy flag is set on entry and cleared on every outcome. */
    method OnSubmit(data: BlogPostData, createFails: bool)
      modifies this
      ensures var token := old(GetAuthToken(store));
        && (!Present(token) ==> created == old(created))
        && (Present(token) ==> created == old(created) + [(data.(tags := old(tags)), token.value)])
        && (Present(token) && !createFails ==> success == CreatedMessage && error == "")
        && (!Present(token) || createFails ==> error == CreateFailedMessage && success == "")
      ensures !isSubmitting && submittingLog == old(submittingLog) + [true, false]
      ensures tags == old(tags) && tagInput == old(tagInput) && formTags == old(formTags)
      ensures isGeneratingPdf == old(isGeneratingPdf) && generatingLog == old(generatingLog)
      ensures effects == old(effects)
    {
      isSubmitting := true;
      submittingLog := submittingLog + [true];
      error := "";
      success := "";
      var token := GetAuthToken(store);
      if !Present(token) {
        error := CreateFailedMessage;
      } else {
        created := created + [(data.(tags := tags), token.value)];
        if createFails {
          error := CreateFailedMessage;
        } else {
          success := CreatedMessage;
        }
      }
      isSubmitting := false;
      submittingLog := submittingLog + [false];
    }

    /** `generatePDF(action)`: the watermarked document of the mock post goes
      to exactly one of save (as slug + ".pdf") and open; a failure only
      raises the alert. The busy flag is set on entry and cleared on every
      outcome. */
    method GeneratePdf(action: Action, title: Option<string>, content: Option<string>, summary: Option<string>,
                       category: Option<string>, isoNow: string, host: Host, generationFails: bool)
      modifies this
      ensures effects == old(effects) + [ClickEffect(action, PreviewDoc(title, content, summary, category, old(tags), isoNow, host),
                                                     Filename(PreviewSlug(title)), generationFails)]
      ensures !isGeneratingPdf && generatingLog == old(generatingLog) + [true, false]
      ensures tags == old(tags) && created == old(created) && isSubmitting == old(isSubmitting)
      ensures submittingLog == old(submittingLog)
      ensures error == old(error) && success == old(success)
      ensures tagInput == old(tagInput) && formTags == old(formTags)
    {
      // Rendering reads the tags and writes no field of the page, so it may
      // come before the flag is raised without changing any outcome.
      var effect := PreviewEffect(action, title, content, summary, category, tags, isoNow, host, generationFails);
      isGeneratingPdf := true;
      generatingLog := generatingLog + [true];
      effects := effects + [effect];
      isGeneratingPdf := false;
      generatingLog := generatingLog + [false];
    }
  }
}

/** `POST /api/v1/blogs/create`: authorization check, required fields, the
    slug derived from the title, and the defaults of the created post.

    The request is its `authorization` header and its body as parsed JSON
    (`None` when `request.json()` rejects). The current time is an input: the
    numeric id `Date.now()` and the ISO timestamp. The response is a status
    code and a JSON body. */
module CreateRoute {
  import opened Wrappers
  import opened Text
  import opened Seqs
  import opened Json

  datatype Request = Request(authorization: Option<string>, body: Option<Json>)

  // ---------------------------------------------------------------------------
  // Slug

  predicate IsSlugChar(c: char) { IsLowerAlnum(c) || c == '-' }

  predicate NotHyphen(c: char) { c != '-' }

  /** No two adjacent hyphens. */
  predicate NoDoubleHyphen(s: string)
  {
    forall i :: 0 <= i < |s| - 1 ==> !(s[i] == '-' && s[i + 1] == '-')
  }

  predicate NoEdgeHyphen(s: string)
  {
    s == [] || (s[0] != '-' && s[|s| - 1] != '-')
  }

  /** `replace(/[^a-z0-9]+/g, "-")`: every maximal run of characters outside
      `[a-z0-9]` becomes one hyphen; `inRun` says the previous character
      already belonged to such a run. */
  function Collapse(s: string, inRun: bool): (r: string)
    ensures forall i :: 0 <= i < |r| ==> IsSlugChar(r[i])
    ensures NoDoubleHyphen(r)
    ensures inRun ==> r == [] || r[0] != '-'
    ensures |r| <= |s|
  {
    if s == [] then []
    else if IsLowerAlnum(s[0]) then [s[0]] + Collapse(s[1..], false)
    else if inRun then Collapse(s[1..], true)
    else ['-'] + Collapse(s[1..], true)
  }

  /** A run of characters outside `[a-z0-9]` becomes one hyphen, or nothing
      when it continues a run already turned into one. */
  lemma {:induction false} CollapseRun(sep: string, t: string, inRun: bool)
    requires sep != [] && forall k :: 0 <= k < |sep| ==> !IsLowerAlnum(sep[k])
    ensures Collapse(sep + t, inRun) == (if inRun then "" else "-") + Collapse(t, true)
    decreases |sep|
  {
    var s := sep + t;
    assert s[0] == sep[0] && s[1..] == sep[1..] + t;
    if |sep| == 1 {
      assert s[1..] == t;
    } else {
      CollapseRun(sep[1..], t, true);
    }
  }

  /** A character of `[a-z0-9]` is kept and ends any run. */
  lemma CollapseKeep(x: char, t: string, inRun: bool)
    requires IsLowerAlnum(x)
    ensures Collapse([x] + t, inRun) == [x] + Collapse(t, false)
  {
    assert ([x] + t)[1..] == t;
  }

  /** The `^-` alternative of `replace(/(^-|-$)/g, "")`. */
  function DropLeading(s: string): (r: string)
    ensures r == s || (s != [] && s[0] == '-' && r == s[1..])
  {
    if s != [] && s[0] == '-' then s[1..] else s
  }

  /** The `-$` alternative. */
  function DropTrailing(s: string): (r: string)
    ensures r == s || (s != [] && s[|s| - 1] == '-' && r == s[..|s| - 1])
  {
    if s != [] && s[|s| - 1] == '-' then s[..|s| - 1] else s
  }

  /** `replace(/(^-|-$)/g, "")`: drops a hyphen at the start and one at the end. */
  function DropEdgeHyphens(s: string): (r: string)
    ensures |r| <= |s| <= |r| + 2
    ensures NoEdgeHyphen(s) ==> r == s
  {
    DropTrailing(DropLeading(s))
  }

  /** The slug of a title: it consists of `[a-z0-9-]`, never holds "--",
      never starts or ends with "-", and deleting its hyphens gives exactly
      the `[a-z0-9]` characters of the lower-cased title, in order. */
  function Slug(title: string): (r: string)
    ensures IsSlugText(r) && NoEdgeHyphen(r)
    ensures Filter(NotHyphen, r) == Filter(IsLowerAlnum, Lower(title))
  {
    DropEdgeHyphensKeeps(Collapse(Lower(title), false));
    CollapseKeepsAlnum(Lower(title), false);
    DropEdgeHyphens(Collapse(Lower(title), false))
  }

  predicate IsSlugText(s: string)
  {
    (forall i :: 0 <= i < |s| ==> IsSlugChar(s[i])) && NoDoubleHyphen(s)
  }

  lemma DropFirst(s: string)
    requires IsSlugText(s) && s != []
    ensures IsSlugText(s[1..])
    ensures s[0] == '-' ==> s[1..] == [] || s[1] != '-'
  {
    forall i | 0 <= i < |s[1..]| - 1 ensures !(s[1..][i] == '-' && s[1..][i + 1] == '-') {
      assert s[1..][i] == s[i + 1] && s[1..][i + 1] == s[i + 2];
    }
  }

  lemma DropLast(s: string)
    requires IsSlugText(s) && s != []
    ensures IsSlugText(s[..|s| - 1])
    ensures s[|s| - 1] == '-' && |s| > 1 ==> s[|s| - 2] != '-'
  {
    var b := s[..|s| - 1];
    forall i | 0 <= i < |b| - 1 ensures !(b[i] == '-' && b[i + 1] == '-') {
      assert b[i] == s[i] && b[i + 1] == s[i + 1];
    }
  }

  /** Dropping a leading hyphen keeps the slug alphabet and the letters, and
      what remains does not start with a hyphen. */
  lemma DropLeadingHyphen(s: string)
    requires IsSlugText(s)
    ensures var a := DropLeading(s);
            IsSlugText(a) && (a == [] || a[0] != '-') && Filter(NotHyphen, a) == Filter(NotHyphen, s)
  {
    if s != [] && s[0] == '-' {
      DropFirst(s);
      FilterDropFirst(NotHyphen, s);
    }
  }

  /** Dropping a trailing hyphen of a string that does not start with one. */
  lemma DropTrailingHyphen(a: string)
    requires IsSlugText(a) && (a == [] || a[0] != '-')
    ensures var r := DropTrailing(a);
            IsSlugText(r) && NoEdgeHyphen(r) && Filter(NotHyphen, r) == Filter(NotHyphen, a)
  {
    if a != [] && a[|a| - 1] == '-' {
      DropLast(a);
      FilterDropLast(NotHyphen, a);
      var b := a[..|a| - 1];
      if b != [] {
        assert b[0] == a[0] && b[|b| - 1] == a[|a| - 2];
      }
    }
  }

  lemma DropEdgeHyphensKeeps(s: string)
    requires IsSlugText(s)
    ensures var r := DropEdgeHyphens(s);
            IsSlugText(r) && NoEdgeHyphen(r) && Filter(NotHyphen, r) == Filter(NotHyphen, s)
  {
    DropLeadingHyphen(s);
    DropTrailingHyphen(DropLeading(s));
  }

  /** Deleting the hyphens from `Collapse(s, _)` leaves the `[a-z0-9]`
      characters of `s`, in order. */
  lemma {:induction false} CollapseKeepsAlnum(s: string, inRun: bool)
    ensures Filter(NotHyphen, Collapse(s, inRun)) == Filter(IsLowerAlnum, s)
  {
    if s != [] {
      CollapseKeepsAlnum(s[1..], !IsLowerAlnum(s[0]));
      var rest := Collapse(s[1..], !IsLowerAlnum(s[0]));
      if IsLowerAlnum(s[0]) {
        FilterConcat(NotHyphen, [s[0]], rest);
      } else if !inRun {
        FilterConcat(NotHyphen, ['-'], rest);
      }
    }
  }

  /** A title without letters or digits has the empty slug. */
  lemma SlugEmpty(title: string)
    requires forall i :: 0 <= i < |title| ==> !IsLowerAlnum(LowerChar(title[i]))
    ensures Slug(title) == ""
  {
    var t := Lower(title);
    FilterDropsAll(IsLowerAlnum, t);
  }

  lemma {:induction false} FilterDropsAll<T>(keep: T -> bool, s: seq<T>)
    requires forall i :: 0 <= i < |s| ==> !keep(s[i])
    ensures Filter(keep, s) == []
  {
    if s != [] {
      FilterDropsAll(keep, s[1..]);
    }
  }

  /** A string already in slug form is left unchanged by `Collapse`. */
  lemma {:induction false} CollapseClean(s: string, inRun: bool)
    requires IsSlugText(s)
    requires inRun ==> s == [] || s[0] != '-'
    ensures Collapse(s, inRun) == s
  {
    if s != [] {
      DropFirst(s);
      CollapseClean(s[1..], !IsLowerAlnum(s[0]));
    }
  }

  /** The slug transform is idempotent. */
  lemma SlugIdempotent(title: string)
    ensures Slug(Slug(title)) == Slug(title)
  {
    var s := Slug(title);
    LowerIdentity(s);
    CollapseClean(s, false);
  }

  // ---------------------------------------------------------------------------
  // The created post

  /** `content.substring(0, 200) + "..."`: at most 200 characters of the
      content, then "..." even when nothing was cut. */
  function SummaryDefault(content: string): (r: string)
    ensures |r| == (if |content| < 200 then |content| else 200) + 3
    ensures r[..|r| - 3] <= content && r[|r| - 3..] == "..."
  {
    (if |content| < 200 then content else content[..200]) + "..."
  }

  datatype Author = Author(id: int, name: string, avatar: string)

  /** The fixed author every created post gets. */
  const DemoAuthor := Author(1, "John Doe", "/diverse-user-avatars.png")

  /** The post the handler answers with. `thumbnail` is `None` when the body
      has no such property: `JSON.stringify` then omits the key. */
  datatype Blog = Blog(
    id: int,
    title: string,
    slug: string,
    content: Json,
    summary: Json,
    thumbnail: Option<Json>,
    category: Json,
    tags: Json,
    views: int,
    isFeatured: Json,
    status: Json,
    createdAt: string,
    updatedAt: string,
    author: Author)

  /** A response body: the created post or `{ error }`. */
  datatype Body = Created(blog: Blog) | Error(error: string)

  datatype Response = Response(status: int, body: Body)

  /** The created post, for a body whose required fields are present and whose
      title is the string `title`; `Failure` when the summary is falsy and the
      content is not a string, where `substring` would throw. */
  function NewBlog(body: Json, title: string, now: int, isoNow: string): (r: Result<Blog>)
    requires body.JObj? && "content" in body.fields && "category" in body.fields
    ensures r.Ok? <==> Truthy(Get(body, "summary").value) || body.fields["content"].JStr?
    ensures r.Ok? ==> var b := r.value;
      && b.id == now && b.title == title && b.slug == Slug(title)
      && b.content == body.fields["content"] && b.views == 0 && b.author == DemoAuthor
      && b.createdAt == isoNow && b.updatedAt == isoNow
      && b.thumbnail == Get(body, "thumbnail").value
      && (Truthy(Get(body, "summary").value) ==> Some(b.summary) == Get(body, "summary").value)
      && (!Truthy(Get(body, "summary").value) ==> b.summary == JStr(SummaryDefault(body.fields["content"].s)))
      && (Truthy(Get(body, "tags").value) ==> Some(b.tags) == Get(body, "tags").value)
      && (!Truthy(Get(body, "tags").value) ==> b.tags == JArr([]))
      && (Truthy(Get(body, "isFeatured").value) ==> Some(b.isFeatured) == Get(body, "isFeatured").value)
      && (!Truthy(Get(body, "isFeatured").value) ==> b.isFeatured == JBool(false))
      && (Truthy(Get(body, "status").value) ==> Some(b.status) == Get(body, "status").value)
      && (!Truthy(Get(body, "status").value) ==> b.status == JStr("published"))
  {
    var content := body.fields["content"];
    var summary := Get(body, "summary").value;
    if !Truthy(summary) && !content.JStr? then
      Failure("TypeError")
    else
      Ok(Blog(
        now, title, Slug(title), content,
        if Truthy(summary) then summary.value else JStr(SummaryDefault(content.s)),
        Get(body, "thumbnail").value,
        body.fields["category"],
        OrElse(Get(body, "tags").value, JArr([])),
        0,
        OrElse(Get(body, "isFeatured").value, JBool(false)),
        OrElse(Get(body, "status").value, JStr("published")),
        isoNow, isoNow, DemoAuthor))
  }

  /** The handler: 401, then 400, then 201; anything thrown is 500. Every
      response has one of these four codes, 401 exactly when the request is
      not authorized, and the body is the created post exactly when the status
      is 201, which needs an authorized request with the required fields and
      a string title whose slug the post carries. */
  function Post(req: Request, now: int, isoNow: string): (r: Response)
    ensures r.status in {201, 400, 401, 500}
    ensures r.body.Created? <==> r.status == 201
    ensures r.status == 401 <==> !Authorized(req)
    ensures r.status == 201 ==>
      && Authorized(req) && req.body.Some? && HasRequiredFields(req.body.value)
      && req.body.value.fields["title"].JStr?
      && r.body.blog.title == req.body.value.fields["title"].s
      && r.body.blog.slug == Slug(r.body.blog.title)
      && NewBlog(req.body.value, req.body.value.fields["title"].s, now, isoNow) == Ok(r.body.blog)
  {
    if req.authorization.None? || !("Bearer " <= req.authorization.value) then
      Response(401, Error("Unauthorized"))
    else if req.body.None? || req.body.value == JNull then
      Response(500, Error("Failed to create blog"))
    else
      var body := req.body.value;
      if !Truthy(Get(body, "title").value) || !Truthy(Get(body, "content").value) || !Truthy(Get(body, "category").value) then
        Response(400, Error("Missing required fields"))
      else if !body.fields["title"].JStr? then
        Response(500, Error("Failed to create blog"))
      else
        match NewBlog(body, body.fields["title"].s, now, isoNow)
        case Ok(blog) => Response(201, Created(blog))
        case Failure(_) => Response(500, Error("Failed to create blog"))
  }

  predicate Authorized(req: Request)
  {
    req.authorization.Some? && "Bearer " <= req.authorization.value
  }

  /** The body was parsed and its three required fields are truthy. */
  predicate HasRequiredFields(body: Json)
  {
    body.JObj? && Truthy(Get(body, "title").value) && Truthy(Get(body, "content").value) && Truthy(Get(body, "category").value)
  }

  /** A missing header, or one not starting with the case-sensitive "Bearer ",
      is 401 whatever the body. */
  lemma UnauthorizedFirst(req: Request, now: int, isoNow: string)
    ensures !Authorized(req) ==> Post(req, now, isoNow) == Post(req.(body := None), now, isoNow)
  {
  }

  /** An authorized request whose body is not JSON or is `null` is 500; one
      whose title, content or category is falsy is 400. */
  lemma MissingFields(req: Request, now: int, isoNow: string)
    requires Authorized(req)
    ensures Post(req, now, isoNow).status == 400 <==>
            req.body.Some? && req.body.value != JNull && !HasRequiredFields(req.body.value)
    ensures req.body.None? ==> Post(req, now, isoNow).status == 500
  {
    if req.body.Some? && req.body.value != JNull && !req.body.value.JObj? {
      var body := req.body.value;
      assert Get(body, "title").value == None;
    }
  }

  /** An authorized request with the required fields is 201 exactly when the
      title is a string and either the summary is truthy or the content is a
      string; the created post carries the slug of the title and the values
      of the body. */
  lemma CreatedStatus(req: Request, now: int, isoNow: string)
    requires Authorized(req) && req.body.Some? && HasRequiredFields(req.body.value)
    ensures var f := req.body.value.fields;
            Post(req, now, isoNow).status == 201 <==>
              f["title"].JStr? && (Truthy(Get(req.body.value, "summary").value) || f["content"].JStr?)
    ensures var r := Post(req, now, isoNow);
            r.status == 201 ==>
              && r.body.Created?
              && r.body.blog.slug == Slug(req.body.value.fields["title"].s)
              && r.body.blog.category == req.body.value.fields["category"]
              && r.body.blog.content == req.body.value.fields["content"]
  {
  }
}

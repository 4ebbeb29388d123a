/** The JSON-LD builder: the article object (tag stripping, word count,
    keywords, image and page URLs) and the switch on the requested type. */
module StructuredData {
  import opened Wrappers
  import opened Text
  import opened Json

  const BaseUrl := "https://johndeveloper.blog"
  const DefaultImage := "https://johndeveloper.blog/og-image.jpg"

  /** Position of the first `c` in `s`. */
  function IndexOf(s: string, c: char): (i: nat)
    requires c in s
    ensures i < |s| && s[i] == c && c !in s[..i]
  {
    if s[0] == c then 0 else 1 + IndexOf(s[1..], c)
  }

  /** What follows the tag that starts at `s[0]`: everything after the first
      `>`. */
  function SkipTag(s: string): (r: string)
    requires s != [] && s[0] == '<' && '>' in s[1..]
    ensures |r| < |s| && r == s[|s| - |r|..]
  {
    s[1..][IndexOf(s[1..], '>') + 1..]
  }

  /** `replace(/<[^>]*>/g, "")`: scanning left to right, a `<` that has a `>`
      somewhere after it starts a match, which runs to the first such `>` and
      is deleted; every other character is kept. */
  function StripTags(s: string): (r: string)
    ensures |r| <= |s|
    ensures multiset(r) <= multiset(s)
    decreases |s|
  {
    if s == [] then []
    else if s[0] == '<' && '>' in s[1..] then
      var rest := SkipTag(s);
      assert s == s[..|s| - |rest|] + rest;
      StripTags(rest)
    else
      assert s == [s[0]] + s[1..];
      [s[0]] + StripTags(s[1..])
  }

  /** No `<` is followed anywhere later by a `>`. */
  predicate NoTag(s: string)
  {
    forall i, j :: 0 <= i < j < |s| && s[i] == '<' ==> s[j] != '>'
  }

  /** After stripping, no `<` is followed later by a `>`. */
  lemma {:induction false} StripTagsNoTag(s: string)
    ensures NoTag(StripTags(s))
    decreases |s|
  {
    if s == [] {
    } else if s[0] == '<' && '>' in s[1..] {
      StripTagsNoTag(SkipTag(s));
    } else {
      var rest := StripTags(s[1..]);
      StripTagsNoTag(s[1..]);
      var r := [s[0]] + rest;
      assert StripTags(s) == r;
      forall i, j | 0 <= i < j < |r| && r[i] == '<' ensures r[j] != '>' {
        if i == 0 {
          assert r[j] == rest[j - 1];
          assert rest[j - 1] in multiset(rest);
          assert '>' !in multiset(s[1..]);
        } else {
          assert r[i] == rest[i - 1] && r[j] == rest[j - 1];
        }
      }
    }
  }

  /** Text without `>` has no tag to strip: every `<` survives. */
  lemma {:induction false} StripTagsNoClose(s: string)
    requires '>' !in s
    ensures StripTags(s) == s
    decreases |s|
  {
    if s != [] {
      assert '>' !in s[1..];
      StripTagsNoClose(s[1..]);
    }
  }

  /** Text without `<` is unchanged. */
  lemma {:induction false} StripTagsNoOpen(s: string)
    requires '<' !in s
    ensures StripTags(s) == s
    decreases |s|
  {
    if s != [] {
      assert '<' !in s[1..];
      StripTagsNoOpen(s[1..]);
    }
  }

  /** Text before the first `<` is kept as it is. */
  lemma {:induction false} StripTagsPrefix(x: string, y: string)
    requires '<' !in x
    ensures StripTags(x + y) == x + StripTags(y)
    decreases |x|
  {
    if x != [] {
      assert (x + y)[0] == x[0] && (x + y)[1..] == x[1..] + y;
      assert '<' !in x[1..];
      StripTagsPrefix(x[1..], y);
      assert x[0] != '<';
      assert StripTags(x + y) == [x[0]] + StripTags(x[1..] + y);
      assert x == [x[0]] + x[1..];
      assert x + StripTags(y) == [x[0]] + (x[1..] + StripTags(y));
    } else {
      assert x + y == y;
    }
  }

  /** A tag `<t>`, with no `>` inside `t`, is deleted as a whole. */
  lemma StripTagsTag(t: string, y: string)
    requires '>' !in t
    ensures StripTags(['<'] + t + ['>'] + y) == StripTags(y)
  {
    var s := ['<'] + t + ['>'] + y;
    assert s[1..] == t + ['>'] + y;
    assert s[1..][|t|] == '>';
    IndexOfAfter(t, y, '>');
    assert SkipTag(s) == (t + ['>'] + y)[|t| + 1..] == y;
  }

  /** The first `c` in `t + [c] + y`, when `t` has none, is at `|t|`. */
  lemma {:induction false} IndexOfAfter(t: string, y: string, c: char)
    requires c !in t
    ensures IndexOf(t + [c] + y, c) == |t|
    decreases |t|
  {
    if t != [] {
      assert (t + [c] + y)[1..] == t[1..] + [c] + y;
      assert c !in t[1..];
      IndexOfAfter(t[1..], y, c);
    }
  }

  /** Stripping `x<t>y`, with no `<` in `x` and no `>` in `t`, keeps `x`,
      deletes the tag and goes on with `y`. */
  lemma StripTagsTagged(x: string, t: string, y: string)
    requires '<' !in x && '>' !in t
    ensures StripTags(x + ['<'] + t + ['>'] + y) == x + StripTags(y)
  {
    assert x + ['<'] + t + ['>'] + y == x + (['<'] + t + ['>'] + y);
    StripTagsPrefix(x, ['<'] + t + ['>'] + y);
    StripTagsTag(t, y);
  }

  /** A `<` with no `>` anywhere after it is kept, and so is the rest. */
  lemma StripTagsUnclosed(x: string, y: string)
    requires '<' !in x && '>' !in y
    ensures StripTags(x + ['<'] + y) == x + ['<'] + y
  {
    assert x + ['<'] + y == x + (['<'] + y);
    StripTagsPrefix(x, ['<'] + y);
    assert '>' !in ['<'] + y;
    StripTagsNoClose(['<'] + y);
  }

  /** `split(" ").length`: one more than the spaces in the stripped text. */
  function WordCount(content: string): (n: nat)
    ensures n >= 1
  {
    |Split(StripTags(content), ' ')|
  }

  /** The word count is the number of spaces left after stripping, plus one;
      empty content counts one word. */
  lemma WordCountSpaces(content: string)
    ensures WordCount(content) == Count(StripTags(content), ' ') + 1
    ensures WordCount("") == 1
  {
  }

  /** The post fields the article object reads. */
  datatype ArticlePost = ArticlePost(
    title: string,
    summary: string,
    thumbnail: Option<string>,
    authorName: string,
    createdAt: string,
    updatedAt: string,
    slug: string,
    tags: seq<string>,
    category: string,
    content: string)

  /** The article object; `copyrightYear` is left out (it needs the calendar). */
  datatype Article = Article(
    headline: string,
    description: string,
    image: string,
    authorName: string,
    datePublished: string,
    dateModified: string,
    pageId: string,
    keywords: string,
    articleSection: string,
    wordCount: nat)

  function ArticleOf(p: ArticlePost): (a: Article)
    ensures a.headline == p.title && a.description == p.summary && a.authorName == p.authorName
    ensures a.datePublished == p.createdAt && a.dateModified == p.updatedAt
    ensures a.articleSection == p.category
    ensures a.image == (if p.thumbnail.Some? && p.thumbnail.value != "" then BaseUrl + p.thumbnail.value else DefaultImage)
    ensures a.pageId == BaseUrl + "/blog/" + p.slug
    ensures a.keywords == Join(p.tags, ", ")
    ensures a.wordCount == Count(StripTags(p.content), ' ') + 1
  {
    Article(
      p.title, p.summary,
      if p.thumbnail.Some? && p.thumbnail.value != "" then BaseUrl + p.thumbnail.value else DefaultImage,
      p.authorName, p.createdAt, p.updatedAt,
      BaseUrl + "/blog/" + p.slug,
      Join(p.tags, ", "),
      p.category,
      WordCount(p.content))
  }

  /** The keywords are the tags joined with ", ": no tags give "", one tag
      gives itself, and with more the first tag is followed by ", ". */
  lemma Keywords(p: ArticlePost)
    ensures p.tags == [] ==> ArticleOf(p).keywords == ""
    ensures |p.tags| == 1 ==> ArticleOf(p).keywords == p.tags[0]
    ensures |p.tags| >= 2 ==> ArticleOf(p).keywords[..|p.tags[0]| + 2] == p.tags[0] + ", "
  {
  }

  datatype LdType = Website | ArticleType | BreadcrumbType

  /** What the script tag serialises: the fixed website object, an article,
      `{}`, or the caller's `data` as it was given. */
  datatype Ld = WebsiteLd | ArticleLd(article: Article) | EmptyLd | Passed(data: Option<Json>)

  function StructuredDataOf(t: LdType, data: Option<Json>, post: Option<ArticlePost>): (r: Ld)
    ensures t == ArticleType && post.None? ==> r == EmptyLd
    ensures t == ArticleType && post.Some? ==> r == ArticleLd(ArticleOf(post.value))
    ensures t == BreadcrumbType ==> r == Passed(data)
    ensures t == Website <==> r == WebsiteLd
  {
    match t
    case Website => WebsiteLd
    case ArticleType => if post.Some? then ArticleLd(ArticleOf(post.value)) else EmptyLd
    case BreadcrumbType => Passed(data)
  }
}

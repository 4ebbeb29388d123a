/** The "My Posts" dashboard: the search and status filter, the stat cards
    and deleting a post. `deleteBlog` is the input `deleteFails`; its calls
    are recorded with the id and token they received. */
module PostsPage {
  import opened Wrappers
  import opened Text
  import opened Seqs
  import opened Storage
  import opened Api

  /** A post's `status`: only "draft" or "published". */
  datatype Status = Draft | Published

  function StatusName(s: Status): string
  {
    match s
    case Draft => "draft"
    case Published => "published"
  }

  /** The fields of a post the page reads. */
  datatype Post = Post(id: int, title: string, status: Status, views: nat)

  /** The search box matches, case-insensitively, anywhere in the title. */
  predicate MatchesSearch(query: string, p: Post)
  {
    Contains(Lower(p.title), Lower(query))
  }

  /** The status select is "all" or the exact status. */
  predicate MatchesStatus(statusFilter: string, p: Post)
  {
    statusFilter == "all" || StatusName(p.status) == statusFilter
  }

  function FilteredPosts(posts: seq<Post>, query: string, statusFilter: string): (r: seq<Post>)
  {
    Filter((p: Post) => MatchesSearch(query, p) && MatchesStatus(statusFilter, p), posts)
  }

  /** A post is listed exactly when it is one of the posts and passes both
      tests; the list keeps the original order and is never longer. */
  lemma FilteredMembers(posts: seq<Post>, query: string, statusFilter: string, p: Post)
    ensures p in FilteredPosts(posts, query, statusFilter) <==>
              p in posts && MatchesSearch(query, p) && MatchesStatus(statusFilter, p)
    ensures |FilteredPosts(posts, query, statusFilter)| <= |posts|
  {
    FilterMembers((p: Post) => MatchesSearch(query, p) && MatchesStatus(statusFilter, p), posts, p);
  }

  /** An empty query with "all" lists every post. */
  lemma EmptyQueryListsAll(posts: seq<Post>)
    ensures FilteredPosts(posts, "", "all") == posts
  {
    forall i | 0 <= i < |posts| ensures MatchesSearch("", posts[i]) {
      ContainsEmpty(Lower(posts[i].title));
    }
    FilterKeepsAll((p: Post) => MatchesSearch("", p) && MatchesStatus("all", p), posts);
  }

  /** The "Published" and "Drafts" cards. */
  function PublishedCount(posts: seq<Post>): nat
  {
    |Filter((p: Post) => p.status == Published, posts)|
  }

  function DraftCount(posts: seq<Post>): nat
  {
    |Filter((p: Post) => p.status == Draft, posts)|
  }

  /** Every post is either published or a draft, so the two cards add up to
      the "Total Posts" card. */
  lemma CountsAddUp(posts: seq<Post>)
    ensures PublishedCount(posts) + DraftCount(posts) == |posts|
  {
    FilterPartition((p: Post) => p.status == Published, (p: Post) => p.status == Draft, posts);
  }

  /** `reduce((sum, p) => sum + p.views, 0)`. */
  function TotalViews(posts: seq<Post>): nat
  {
    if posts == [] then 0 else posts[0].views + TotalViews(posts[1..])
  }

  /** Each post's views are part of the total. */
  lemma {:induction false} TotalViewsIncludes(posts: seq<Post>, i: nat)
    requires i < |posts|
    ensures posts[i].views <= TotalViews(posts)
  {
    if i > 0 {
      TotalViewsIncludes(posts[1..], i - 1);
    }
  }

  /** The list after a successful delete of `id`. */
  function WithoutPost(posts: seq<Post>, id: int): seq<Post>
  {
    Filter((p: Post) => p.id != id, posts)
  }

  /** A delete keeps exactly the posts with a different id, in order. */
  lemma DeleteRemoves(posts: seq<Post>, id: int)
    ensures forall p :: p in WithoutPost(posts, id) <==> p in posts && p.id != id
    ensures forall i :: 0 <= i < |WithoutPost(posts, id)| ==> WithoutPost(posts, id)[i].id != id
    ensures (forall i :: 0 <= i < |posts| ==> posts[i].id != id) ==> WithoutPost(posts, id) == posts
  {
    var keep := (p: Post) => p.id != id;
    forall p ensures p in Filter(keep, posts) <==> p in posts && keep(p) {
      FilterMembers(keep, posts, p);
    }
    if forall i :: 0 <= i < |posts| ==> posts[i].id != id {
      FilterKeepsAll(keep, posts);
    }
  }

  class PostsPage {
    const store: LocalStorage?
    var posts: seq<Post>
    var deletingId: Option<int>
    /** Every value written to `deletingId`, in order. */
    ghost var deletingLog: seq<Option<int>>
    /** The `deleteBlog` calls: the id and the token. */
    var deleted: seq<(int, string)>

    constructor (store: LocalStorage?, posts: seq<Post>)
      ensures this.store == store && this.posts == posts
      ensures deletingId == None && deletingLog == [] && deleted == []
    {
      this.store := store;
      this.posts := posts;
      deletingId := None;
      deletingLog := [];
      deleted := [];
    }

    /** `handleDelete(id)`: without a token nothing is deleted; otherwise
      `deleteBlog` is called once, and the post leaves the list unless the
      call fails. `deletingId` is the id during the call and null after. */
    method HandleDelete(id: int, deleteFails: bool)
      modifies this
      ensures var token := GetAuthToken(store);
        && (!Present(token) ==> deleted == old(deleted))
        && (Present(token) ==> deleted == old(deleted) + [(id, token.value)])
        && (Present(token) && !deleteFails ==> posts == WithoutPost(old(posts), id))
        && (!Present(token) || deleteFails ==> posts == old(posts))
      ensures deletingId == None && deletingLog == old(deletingLog) + [Some(id), None]
    {
      deletingId := Some(id);
      deletingLog := deletingLog + [Some(id)];
      var token := GetAuthToken(store);
      if Present(token) {
        deleted := deleted + [(id, token.value)];
        if !deleteFails {
          posts := Filter((p: Post) => p.id != id, posts);
        }
      }
      deletingId := None;
      deletingLog := deletingLog + [None];
    }
  }
}

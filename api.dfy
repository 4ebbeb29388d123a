/** The client-side API helpers: the token and user readers over the
    session store, the stats request's validate-or-fallback decision, the
    post list's fallback and the login delegation. The network is an input:
    what `fetch` answered, or `None` when it rejected. */
module Api {
  import opened Wrappers
  import opened Text
  import opened Storage
  import opened Json
  import opened Auth

  /** `getAuthToken()`: the stored access token, or `None` without a window
      or without the key. An empty token is returned as it is. */
  function GetAuthToken(store: LocalStorage?): (r: Option<string>)
    reads store
    ensures r.Some? <==> store != null && "accessToken" in store.items
    ensures r.Some? ==> r.value == store.items["accessToken"]
  {
    if store == null then None else Lookup(store.items, "accessToken")
  }

  /** A token the callers accept: present and non-empty (`if (!token)`). */
  lemma TokenMeansAuthenticated(store: LocalStorage?)
    ensures Present(GetAuthToken(store)) <==> IsAuthenticated(store)
  {
  }

  datatype UserInfo = UserInfo(id: string, name: Option<string>, avatar: Option<string>)

  /** `getUserInfo()` on the store's map. */
  function UserInfoOf(items: map<string, string>): (r: Option<UserInfo>)
    ensures r.None? <==> !Present(Lookup(items, "userId"))
    ensures r.Some? ==> r.value == UserInfo(items["userId"], Lookup(items, "name"), Lookup(items, "avatar"))
  {
    var userId := Lookup(items, "userId");
    if !Present(userId) then None else Some(UserInfo(userId.value, Lookup(items, "name"), Lookup(items, "avatar")))
  }

  function GetUserInfo(store: LocalStorage?): (r: Option<UserInfo>)
    reads store
    ensures store == null ==> r.None?
    ensures store != null ==> r == UserInfoOf(store.items)
  {
    if store == null then None else UserInfoOf(store.items)
  }

  /** Whenever there is a stored user there is user info with the same id and
      name. */
  lemma StoredUserHasInfo(items: map<string, string>)
    requires StoredUser(items).Some?
    ensures UserInfoOf(items).Some?
    ensures UserInfoOf(items).value.id == StoredUser(items).value.id
    ensures UserInfoOf(items).value.name == Some(StoredUser(items).value.name)
  {
  }

  /** The converse fails: a store with a user id and no name has user info but
      no stored user. */
  lemma InfoWithoutName()
    ensures UserInfoOf(map["userId" := "7"]) == Some(UserInfo("7", None, None))
    ensures StoredUser(map["userId" := "7"]) == None
  {
    var items := map["userId" := "7"];
    assert "name" !in items && "avatar" !in items;
  }

  // ---------------------------------------------------------------------------
  // Blog statistics

  /** What the stats request received: the `ok` flag, the content-type header
      and the outcome of `response.json()`. */
  datatype StatsResponse = StatsResponse(ok: bool, contentType: Option<string>, body: Result<Json>)

  datatype BlogStats = BlogStats(totalPosts: real, totalViews: real)

  const FallbackStats := BlogStats(25.0, 15420.0)

  /** The reply passes every check: ok, a JSON content type, a parsed body
      whose `data` member holds numeric `totalPosts` and `totalWebViews`. */
  predicate Accepted(r: StatsResponse)
  {
    && r.ok
    && r.contentType.Some? && Contains(r.contentType.value, "application/json")
    && r.body.Ok?
    && HasStats(r.body.value)
  }

  /** `data.data` is an object with numeric `totalPosts` and `totalWebViews`. */
  predicate HasStats(data: Json)
  {
    var stats := Get(data, "data");
    && stats.Ok? && stats.value.Some? && stats.value.value.JObj?
    && "totalPosts" in stats.value.value.fields && stats.value.value.fields["totalPosts"].JNum?
    && "totalWebViews" in stats.value.value.fields && stats.value.value.fields["totalWebViews"].JNum?
  }

  /** The statistics an accepted reply carries. */
  function StatsOf(r: StatsResponse): BlogStats
    requires Accepted(r)
  {
    var fields := Get(r.body.value, "data").value.value.fields;
    BlogStats(fields["totalPosts"].n, fields["totalWebViews"].n)
  }

  /** `getBlogStats()`: the data of an accepted reply, and the fallback on
      every failure: a rejected fetch, a status that is not ok, a missing or
      non-JSON content type, an unparsable body, or a body of the wrong shape. */
  method GetBlogStats(fetched: Option<StatsResponse>) returns (stats: BlogStats)
    ensures fetched.Some? && Accepted(fetched.value) ==> stats == StatsOf(fetched.value)
    ensures !(fetched.Some? && Accepted(fetched.value)) ==> stats == FallbackStats
  {
    var outcome := Failure("fetch rejected");
    if fetched.Some? {
      outcome := ReadStats(fetched.value);
    }
    if outcome.Ok? {
      stats := outcome.value;
    } else {
      stats := FallbackStats;
    }
  }

  /** The body of the `try` block: each check throws, as a `Failure`. */
  method ReadStats(response: StatsResponse) returns (outcome: Result<BlogStats>)
    ensures outcome.Ok? <==> Accepted(response)
    ensures outcome.Ok? ==> outcome.value == StatsOf(response)
  {
    if !response.ok {
      return Failure("HTTP error");
    }
    var contentType := response.contentType;
    if contentType.None? || !Contains(contentType.value, "application/json") {
      return Failure("Invalid content type");
    }
    if response.body.Failure? {
      return Failure(response.body.message);
    }
    var data := response.body.value;
    var stats := Get(data, "data");
    if stats.Failure? {
      return Failure("TypeError");
    }
    var totalPosts := Member(stats.value, "totalPosts");
    var totalWebViews := Member(stats.value, "totalWebViews");
    if totalPosts.Failure? || totalWebViews.Failure? {
      return Failure("TypeError");
    }
    if totalPosts.value.None? || !totalPosts.value.value.JNum?
       || totalWebViews.value.None? || !totalWebViews.value.value.JNum? {
      return Failure("Invalid response structure");
    }
    return Ok(BlogStats(totalPosts.value.value.n, totalWebViews.value.value.n));
  }

  /** The body the bundled count route sends: the two numbers at the top
      level, with no `data` member. */
  const CountRouteBody := JObj(map["totalPosts" := JNum(25.0), "totalViews" := JNum(15420.0)])

  /** Against the count route's shape, `data.data` is undefined, reading a
      member of it throws, and the reply is never accepted. */
  lemma CountRouteNotAccepted(contentType: string)
    ensures !Accepted(StatsResponse(true, Some(contentType), Ok(CountRouteBody)))
  {
    assert "data" !in CountRouteBody.fields;
  }

  // ---------------------------------------------------------------------------
  // Blog list

  /** What the list request received. */
  datatype BlogsFetch = NetworkError | Fetched(ok: bool, body: Result<Json>)

  const EmptyBlogs := JObj(map["posts" := JArr([]), "total" := JNum(0.0)])

  /** `getBlogs()` as written: the fallback covers a rejected fetch and a
      status that is not ok, but `return response.json()` hands back the
      parse promise un-awaited, so a body that fails to parse escapes the
      `catch` and is the caller's error. */
  function GetBlogs(f: BlogsFetch): (r: Result<Json>)
    ensures f.NetworkError? || !f.ok ==> r == Ok(EmptyBlogs)
    ensures f.Fetched? && f.ok ==> r == f.body
  {
    match f
    case NetworkError => Ok(EmptyBlogs)
    case Fetched(ok, body) => if !ok then Ok(EmptyBlogs) else body
  }

  /** `getBlogs()` with the parse awaited inside the `try`: the fallback on
      every failure. */
  function GetBlogsCorrected(f: BlogsFetch): (r: Result<Json>)
    ensures r.Ok?
    ensures f.Fetched? && f.ok && f.body.Ok? ==> r == f.body
    ensures !(f.Fetched? && f.ok && f.body.Ok?) ==> r == Ok(EmptyBlogs)
  {
    if f.Fetched? && f.ok && f.body.Ok? then f.body else Ok(EmptyBlogs)
  }

  /** A successful status with an unparsable body: the written version fails,
      the corrected one falls back. */
  lemma UnparsableListBody()
    ensures GetBlogs(Fetched(true, Failure("SyntaxError"))).Failure?
    ensures GetBlogsCorrected(Fetched(true, Failure("SyntaxError"))) == Ok(EmptyBlogs)
  {
  }

  /** Both versions agree whenever the body parses. */
  lemma GetBlogsAgree(f: BlogsFetch)
    requires f.Fetched? ==> f.body.Ok?
    ensures GetBlogs(f) == GetBlogsCorrected(f)
  {
  }

  // ---------------------------------------------------------------------------
  // Login

  /** `login(email, password)`: always the demo login; the request code after
      its `return` is never reached. */
  function Login(email: string, password: string, now: nat): (r: Result<AuthResponse>)
    ensures r == MockLogin(email, password, now)
    ensures r.Ok? <==> email == DemoEmail && password == DemoPassword
  {
    MockLogin(email, password, now)
  }
}

# Personal blog client: a verified model

This project models the core of a personal blog's Next.js client in Dafny:

- **Blog-post PDF renderer.** Header block, wrapped body with page breaks, "DEMO" watermark and footer.
- **Pages and components that use the PDF renderer.** The PDF button and the add-post preview.
- **Session helpers and the store they use.** Stored user, sign-out, token check, demo login, and the browser's `localStorage`.
- **Client API helpers.** Token, user info, blog statistics with their fallback, the post list, and login.
- **`POST /api/v1/blogs/create` route handler.**
- **Form schemas.** Contact, newsletter, login and blog post.
- **Pages.** Login, add-post, and the "My Posts" dashboard.
- **Components.** The dashboard gate, the navigation bar, breadcrumbs, and the JSON-LD builder.

There is one module per source file, plus five shared ones:

- `Wrappers`: `Option` and `Result`.
- `Text`: ASCII lower-casing and trimming, `includes`, `split`, `join`, decimal strings.
- `Seqs`: `filter` and its lemmas.
- `Json`: JSON values, JavaScript truthiness, member access.
- `Storage`: the browser's `localStorage` as a class over a `map<string, string>`.

State the source changes in place is modelled as classes:

- the jsPDF document (`PdfGenerator.PdfDoc`);
- `localStorage`;
- each page and component's React state: `AddPostPage`, `PostsPage`, `LoginPage`, `Gate`, `NavbarState`, `PdfButton`.

Each method on these classes is specified by pure functions of the old state. Every value the source writes to a busy flag is recorded in a ghost log, so "set on entry, cleared on every outcome" is part of each contract.

The following become inputs:

- What the network, the PDF library and the clock answer (`fetched`, `createFails`, `generationFails`, `now`, `isoNow`).
- jsPDF's page size, its text wrapper `splitTextToSize` and the browser's date formatting (`PdfGenerator.Host`).
- Zod's `email()` and `url()` checks (`isEmail`, `isUrl`).

`PdfGenerator.Layout` is the whole rendering as a function. The method `GenerateBlogPdf` performs it call by call on a `PdfDoc`, with the source's loop, and is proved to produce exactly `Layout`. Module `PdfPagination` proves what the layout promises.

Three behaviours of the code are worth stating up front:

- **Footer.** The footer is drawn once, after the body loop, so it lands on the last page (lib/pdf-generator.ts:73-76, `FooterOnce`).
- **Empty content.** Content is wrapped with no check for emptiness: an empty body is wrapped and drawn like any other (lib/pdf-generator.ts:49-50).
- **Post list fallback.** The `catch` of `getBlogs` returns an empty list "as fallback", which shows the fallback was meant for every failure. The JSON parse inside the `try` is not awaited, so its failure escapes the `catch` (lib/api.ts:72-80, Findings).

## Model

| member | source | states |
|---|---|---|
| Text.Trim | app/dashboard/add-post/page.tsx:53 | the trimmed text is a contiguous piece of the input with only white space outside it, starts and ends with a non-space, and is empty exactly when the input is all white space |
| Text.TrimIdempotent | app/dashboard/add-post/page.tsx:53-54 | trimming a trimmed tag changes nothing |
| Text.Lower | app/dashboard/posts/page.tsx:104 | lower-casing keeps the length and maps every character through the ASCII lower-case map, leaving no upper-case letter |
| Text.Split | components/navbar.tsx:107-108 | `split(" ")` gives one piece more than there are separators, and no piece holds the separator |
| Text.JoinSplit | components/navbar.tsx:107-110 | joining the pieces of a split with the separator gives back the text |
| Text.Join | lib/pdf-generator.ts:45 | joining no pieces gives "" and joining one piece gives that piece |
| Text.SplitJoin | lib/pdf-generator.ts:45 | splitting pieces that were joined with a separator none of them holds gives back the pieces |
| Text.DecimalString | app/auth/login/page.tsx:51 | `toString()` of a number gives at least one digit, only digits, denoting the number when read as decimal, and no leading zero except for 0 |
| Text.Contains | app/dashboard/posts/page.tsx:104 | `includes` holds exactly when the needle occurs at some index |
| Seqs.FilterMembers | app/dashboard/posts/page.tsx:103-107 | an element is kept exactly when it is in the list and passes the test |
| Seqs.FilterNoDuplicates | app/dashboard/add-post/page.tsx:62 | filtering a list without duplicates keeps it without duplicates |
| Storage.Lookup | lib/api.ts:202-205 | `getItem` returns a value exactly when the key is stored, and that value is the stored one |
| Json.Get | app/api/v1/blogs/create/route.ts:14 | reading a member of `null` throws; an object gives the member when it has it and undefined otherwise; any other value gives undefined |
| Json.OrElse | app/api/v1/blogs/create/route.ts:33-36 | `v \|\| d` is the value when it is truthy and the default otherwise |
| Auth.StoredUser | lib/auth.ts:12-24 | no user exactly when `userId` or `name` is absent or empty; otherwise the id and name are the stored ones, the email is the stored one or "", and the avatar is the stored one when non-empty |
| Auth.GetStoredUser | lib/auth.ts:9-25 | without a window there is no user; otherwise the user the store describes |
| Auth.ClearedKeys | lib/auth.ts:27-36 | signing out removes exactly the six session keys and leaves every other entry as it was |
| Auth.ClearIdempotent | lib/auth.ts:27-36 | signing out twice is the same as signing out once |
| Auth.ClearedSignedOut | lib/auth.ts:27-43 | after signing out there is neither a token nor a stored user |
| Auth.SixRemovals | lib/auth.ts:30-35 | the six one-key removals, in order, remove exactly the session keys |
| Auth.ClearAuthData | lib/auth.ts:27-36 | the store after the call is the old store without the session keys; nothing happens without a window |
| Auth.IsAuthenticated | lib/auth.ts:38-43 | authenticated exactly when there is a window and a non-empty `accessToken` |
| Auth.MockLogin | lib/auth.ts:46-65 | succeeds exactly for the demo email and password, answering with the demo user; otherwise fails with "Invalid credentials" |
| Auth.MockTokens | lib/auth.ts:51-61 | the demo tokens are non-empty and distinct, and each is its prefix followed by the clock reading |
| Api.GetAuthToken | lib/api.ts:202-205 | a token exactly when there is a window and the key is stored, and it is the stored text, even when empty |
| Api.TokenMeansAuthenticated | lib/api.ts:202-205 | the callers' `if (!token)` accepts exactly the sessions `isAuthenticated` accepts |
| Api.UserInfoOf | lib/api.ts:208-218 | no info exactly when `userId` is absent or empty; otherwise the id with the stored name and avatar as they are |
| Api.GetUserInfo | lib/api.ts:208-218 | without a window no info; otherwise the info the store describes |
| Api.StoredUserHasInfo | lib/api.ts:208-218 | whenever there is a stored user there is user info with the same id and name |
| Api.InfoWithoutName | lib/api.ts:208-218 | a store with a user id and no name has user info but no stored user |
| Api.ReadStats | lib/api.ts:111-139 | the `try` block succeeds exactly when the reply passes every check: ok, a JSON content type, a parsed body and numeric `data.totalPosts` and `data.totalWebViews`; the result is those two numbers |
| Api.GetBlogStats | lib/api.ts:98-152 | the statistics of an accepted reply; the fixed 25 / 15420 fallback on every failure, a rejected fetch included |
| Api.CountRouteNotAccepted | app/api/v1/blogs/count/route.ts:6-11 | the bundled count route's body, which has no `data` member, is never accepted, so its numbers never reach the caller |
| Api.GetBlogs | lib/api.ts:64-81 | as written: the empty list on a rejected fetch or a status that is not ok, and the outcome of the parse, failure included, after an ok status |
| Api.GetBlogsCorrected | lib/api.ts:64-81 | corrected: always a value, the parsed body when there is one and the empty list on every failure |
| Api.UnparsableListBody | lib/api.ts:72 | an ok status with an unparsable body fails as written and falls back when corrected |
| Api.GetBlogsAgree | lib/api.ts:64-81 | the two versions agree whenever the body parses |
| Api.Login | lib/api.ts:42-45 | login is always the demo login: it succeeds exactly for the demo credentials |
| CreateRoute.Collapse | app/api/v1/blogs/create/route.ts:19-21 | the result uses only `[a-z0-9-]`, never holds two hyphens in a row, does not start with one when continuing a run, and is never longer than the input |
| CreateRoute.CollapseRun | app/api/v1/blogs/create/route.ts:21 | a whole run of characters outside `[a-z0-9]` becomes one hyphen, or nothing when it continues a run already replaced |
| CreateRoute.CollapseKeep | app/api/v1/blogs/create/route.ts:21 | a character of `[a-z0-9]` is kept as it is and ends any run |
| CreateRoute.DropEdgeHyphens | app/api/v1/blogs/create/route.ts:22 | drops at most one hyphen at each end, and leaves a string without edge hyphens alone |
| CreateRoute.Slug | app/api/v1/blogs/create/route.ts:19-22 | the slug uses only `[a-z0-9-]`, never holds "--", never starts or ends with "-", and deleting its hyphens gives exactly the `[a-z0-9]` characters of the lower-cased title, in order |
| CreateRoute.SlugEmpty | app/api/v1/blogs/create/route.ts:19-22 | a title without ASCII letters or digits has the empty slug |
| CreateRoute.SlugIdempotent | app/api/v1/blogs/create/route.ts:19-22 | the slug of a slug is itself |
| CreateRoute.SummaryDefault | app/api/v1/blogs/create/route.ts:30 | the default summary is at most 200 leading characters of the content followed by "...", even when nothing was cut |
| CreateRoute.NewBlog | app/api/v1/blogs/create/route.ts:25-44 | fails exactly when the summary is falsy and the content is not a string; otherwise id, title, slug, content, dates, views 0 and the fixed author, with each optional field taken from the body when truthy and defaulted otherwise |
| CreateRoute.Post | app/api/v1/blogs/create/route.ts:3-51 | every response is 201, 400, 401 or 500; 401 exactly when the header is missing or does not start with "Bearer "; the body is the created post exactly when the status is 201, which needs an authorized request with the required fields and a string title whose slug the post carries; that post is exactly the one `NewBlog` builds from the body, so it has every copied field and default |
| CreateRoute.UnauthorizedFirst | app/api/v1/blogs/create/route.ts:5-9 | an unauthorized request gets the same response whatever its body |
| CreateRoute.MissingFields | app/api/v1/blogs/create/route.ts:11-16 | an authorized request is 400 exactly when its JSON body is not null and lacks a truthy title, content or category; a body that does not parse is 500 |
| CreateRoute.CreatedStatus | app/api/v1/blogs/create/route.ts:19-46 | with the required fields, 201 exactly when the title is a string and the summary is truthy or the content is a string; the post carries the title's slug and the body's category and content |
| Validations.Issues | lib/validations.ts:4-38 | no issue exactly when every rule holds; an issue is listed exactly when some failing rule reports it |
| Validations.Check | lib/validations.ts:4-38 | a parse is accepted exactly when every rule holds, carrying the data; otherwise it lists the failing rules' issues in field order |
| Validations.ParseContact | lib/validations.ts:4-9 | accepted exactly when the name has at least 2 characters, the email is valid and the message has at least 10; each message is reported exactly when its rule fails |
| Validations.PhoneOptional | lib/validations.ts:7 | the phone number plays no part in accepting the contact form |
| Validations.ParseNewsletter | lib/validations.ts:14-16 | accepted exactly when the email is valid, carrying that email; otherwise only the email message |
| Validations.ParseLogin | lib/validations.ts:21-24 | accepted exactly when the email is valid and the password has at least 6 characters; each message is reported exactly when its rule fails |
| Validations.EmailRequired | lib/validations.ts:4-24 | an address the email check rejects fails the contact, newsletter and login forms, each reporting the email message |
| Validations.ParseBlogPost | lib/validations.ts:29-38 | an accepted post keeps its title, content, summary, category, tags, thumbnail and status, and `isFeatured` defaults to false |
| Validations.BlogPostAccepted | lib/validations.ts:29-38 | a blog post is accepted exactly when: title at least 5, content at least 50 and summary at least 20 characters; a category; a tag; a URL thumbnail when present; status draft or published |
| Validations.BlogPostLengthMessages | lib/validations.ts:30-33 | the title, content, summary and category messages are each reported exactly when their rule fails |
| Validations.BlogPostChoiceMessages | lib/validations.ts:34-36 | the tags, thumbnail and status messages are each reported exactly when their rule fails; the status message names the value received |
| Validations.TitleRule | lib/validations.ts:30 | among forms that differ only in their title, one is accepted exactly when its title has at least 5 characters |
| LoginPage.WrittenKeys | app/auth/login/page.tsx:48-55 | a successful login sets the tokens, the id as a decimal string and the name, sets the avatar only when non-empty, and leaves every other key, the email included, as it was |
| LoginPage.SignInAfterSignOut | app/auth/login/page.tsx:46-55 | signing out and then in with the demo credentials leaves an authenticated session whose stored user is the demo user with email "" |
| LoginPage.FailedLoginWritesNothing | app/auth/login/page.tsx:45-66 | a failed login leaves the store as it was |
| LoginPage.LoginPage.constructor | app/auth/login/page.tsx:20-22 | a fresh page is not submitting and shows no message |
| LoginPage.LoginPage.Mount | app/auth/login/page.tsx:33-38 | a visitor with a non-empty stored token is sent to the dashboard; nothing else changes |
| LoginPage.LoginPage.OnSubmit | app/auth/login/page.tsx:40-70 | the store is written exactly on success; the messages are cleared, then show success or the error; the busy flag goes true and then false on both outcomes |
| ProtectedRoute.Select | components/auth/protected-route.tsx:31-52 | the spinner exactly while undecided, the children exactly when authenticated, otherwise the fallback when given and "Access Denied" when not |
| ProtectedRoute.Gate.constructor | components/auth/protected-route.tsx:16 | the first render is undecided and shows the spinner |
| ProtectedRoute.Gate.Effect | components/auth/protected-route.tsx:18-29 | decides once from the token, redirects to the login page exactly when it denies, and then shows the children exactly when authenticated |
| ProtectedRoute.Mount | components/auth/protected-route.tsx:14-53 | one mount goes from undecided to decided once; it shows the children or redirects to the login page, depending on the stored token |
| Breadcrumb.Entry | components/seo/breadcrumb.tsx:25-30 | the entry of item i is at position i + 2 with the item's label; it has a URL exactly when the item has a non-empty `href`, and that URL is the site URL followed by it |
| Breadcrumb.ItemListElement | components/seo/breadcrumb.tsx:18-31 | Home comes first, then one entry per item, in order |
| Breadcrumb.Positions | components/seo/breadcrumb.tsx:18-31 | positions run 1 to n + 1 in list order; the names are "Home" and then the labels |
| Breadcrumb.Crumbs | components/seo/breadcrumb.tsx:46-63 | one rendered crumb per item, in order, a link exactly when the item has an `href` |
| Breadcrumb.CurrentRule | components/seo/breadcrumb.tsx:49-60 | a crumb is marked as the current page exactly when it is not a link or it is the last crumb |
| Breadcrumb.OneCurrentAmongLinks | components/seo/breadcrumb.tsx:49-60 | when every item is a link, exactly one crumb, the last, is marked current |
| StructuredData.StripTags | components/seo/structured-data.tsx:70 | tag stripping never lengthens the text and only deletes characters |
| StructuredData.StripTagsNoTag | components/seo/structured-data.tsx:70 | after stripping, no `<` is followed anywhere later by a `>` |
| StructuredData.StripTagsNoClose | components/seo/structured-data.tsx:70 | text without `>` is left as it is |
| StructuredData.StripTagsNoOpen | components/seo/structured-data.tsx:70 | text without `<` is left as it is |
| StructuredData.StripTagsPrefix | components/seo/structured-data.tsx:70 | text before the first `<` is kept as it is |
| StructuredData.StripTagsTag | components/seo/structured-data.tsx:70 | a tag `<t>` with no `>` inside `t` is deleted as a whole |
| StructuredData.StripTagsTagged | components/seo/structured-data.tsx:70 | in `x<t>y`, with no `<` in `x` and no `>` in `t`, stripping keeps `x`, deletes `<t>` and goes on with `y` |
| StructuredData.StripTagsUnclosed | components/seo/structured-data.tsx:70 | a `<` with no `>` anywhere after it is kept, with everything around it |
| StructuredData.WordCountSpaces | components/seo/structured-data.tsx:70 | the word count is the number of spaces left after stripping, plus one; empty content counts one word |
| StructuredData.ArticleOf | components/seo/structured-data.tsx:41-77 | the article copies title, summary, author, dates and category; the image is the thumbnail URL or the default; the page id is the post URL; the keywords are the tags joined with ", " |
| StructuredData.Keywords | components/seo/structured-data.tsx:68 | no tags give "", one tag gives itself, and with more the first tag is followed by ", " |
| StructuredData.StructuredDataOf | components/seo/structured-data.tsx:9-84 | the website object exactly for "website"; for "article" the article when there is a post and `{}` otherwise; for "breadcrumb" the caller's data as given |
| Navbar.Initials | components/navbar.tsx:107-110 | the initials never contain a space |
| Navbar.InitialsAround | components/navbar.tsx:107-110 | the initials of two words joined by a space are the initials of each; extra spaces add nothing |
| Navbar.InitialsWord | components/navbar.tsx:107-110 | a single word gives its first letter |
| Navbar.AuthNavigation | components/navbar.tsx:50-56 | a signed-in user gets Add Post, My Posts and Messages; anyone else gets Login |
| Navbar.OneActive | components/navbar.tsx:43-48 | at most one main link is active, and one is active exactly when the path is one of the four routes |
| Navbar.NavbarState.Mount | components/navbar.tsx:30-34 | the bar shows the stored user |
| Navbar.NavbarState.HandleLogout | components/navbar.tsx:36-41 | the session keys are removed, the user is forgotten, the route is "/", and afterwards there is neither a stored user nor a session |
| PdfGenerator.WithText | lib/pdf-generator.ts:31 | drawing appends one placement, with the current font, colour and weight, to the last page, and changes nothing else |
| PdfGenerator.PdfDoc.constructor | lib/pdf-generator.ts:6 | a new document has one empty page and 16pt black normal text |
| PdfGenerator.PdfDoc.AddPage | lib/pdf-generator.ts:54 | appends an empty page and keeps the drawing state |
| PdfGenerator.PdfDoc.SetFontSize | lib/pdf-generator.ts:17 | changes only the font size |
| PdfGenerator.PdfDoc.SetTextColor | lib/pdf-generator.ts:16 | changes only the text colour |
| PdfGenerator.PdfDoc.SetFont | lib/pdf-generator.ts:29 | changes only the font weight |
| PdfGenerator.PdfDoc.Text | lib/pdf-generator.ts:18-21 | appends the placement to the last page with the current drawing state |
| PdfGenerator.Stamp | lib/pdf-generator.ts:15-22 | the watermark leaves the page count and weight, and sets 50pt light grey |
| PdfGenerator.Header | lib/pdf-generator.ts:12-49 | the header stays on one page and leaves 11pt black normal text |
| PdfGenerator.BreakPage | lib/pdf-generator.ts:53-66 | a break adds exactly one page and keeps the earlier pages |
| PdfGenerator.Step | lib/pdf-generator.ts:52-71 | a line adds a page exactly when the cursor is past the limit, and the cursor moves 6 below where the line was drawn |
| PdfGenerator.Run | lib/pdf-generator.ts:52-71 | the body loop never removes a page |
| PdfGenerator.GenerateBlogPdf | lib/pdf-generator.ts:2-79 | the document the source builds call by call is exactly the layout as written |
| PdfGenerator.GenerateBlogPdfCorrected | lib/pdf-generator.ts:2-79 | as `GenerateBlogPdf`, with the body font restored after a watermarked break |
| PdfGenerator.DrawBody | lib/pdf-generator.ts:52-71 | the loop over the wrapped lines produces exactly the body layout from its starting state and cursor |
| PdfGenerator.DrawLine | lib/pdf-generator.ts:53-70 | one iteration is one step of the body layout |
| PdfGenerator.NewPage | lib/pdf-generator.ts:54-66 | the break inside the loop is the layout's page break |
| PdfGenerator.DrawFooter | lib/pdf-generator.ts:74-76 | the footer is drawn last, 8pt grey, with nothing else changed |
| PdfPagination.HeaderShape | lib/pdf-generator.ts:12-49 | page 0 holds exactly the header block, the body starts at margin + 10 per title line + 61, and the text is 11pt black normal |
| PdfPagination.HeaderPositions | lib/pdf-generator.ts:12-46 | the finished page 0 starts with the watermark when on, then the title at the margins, author 10 per title line + 10 below, date 8 below, category 15 below that and tags 8 further |
| PdfPagination.PlacementKind | lib/pdf-generator.ts:12-76 | every placement is a header item on page 0, the watermark first on a later page, a body line at the left margin 6 below the previous one, or the final footer |
| PdfPagination.BodyWithinMargins | lib/pdf-generator.ts:52-71 | on a page at least two margins high, every body line is between the top margin and the bottom limit; after a break the first line is at the top margin, and lines on a page are 6 apart |
| PdfPagination.BreakRule | lib/pdf-generator.ts:53-56 | every page but the last was left because the cursor after its last line was past the bottom limit |
| PdfPagination.OneWatermarkPerPage | lib/pdf-generator.ts:15-22 | with the watermark on, each page carries it exactly once, first; with it off no page carries it |
| PdfPagination.FooterOnce | lib/pdf-generator.ts:74-76 | the footer appears exactly once, as the last placement of the last page |
| PdfPagination.ReadingOrder | lib/pdf-generator.ts:50-71 | the body lines, read page by page without the footer, give back the wrapped content in order, without loss or repetition |
| PdfPagination.BodyFontAsWritten | lib/pdf-generator.ts:58-69 | as written, the body lines are 11pt on page 0 and 50pt on later pages when the watermark is on; they are always black |
| PdfPagination.BodyFontCorrected | lib/pdf-generator.ts:49-69 | corrected, every body line is 11pt and black on every page |
| PdfPagination.PageCount | lib/pdf-generator.ts:52-56 | the page count is one plus the number of breaks, which is determined by the cursor alone |
| PdfPagination.OversizedLineAfterBreak | lib/pdf-generator.ts:58-69 | on a 50-unit-high page the only body line goes to page 2, drawn at 50pt as written and at 11pt corrected |
| PdfDownloadButton.Buttons | components/pdf-download-button.tsx:38-77 | "download" shows one download button, "preview" one preview button, and the default shows preview then download; while generating every button is disabled and reads "Generating..." |
| PdfDownloadButton.Filename | components/pdf-download-button.tsx:23 | the file name is the slug followed by ".pdf" |
| PdfDownloadButton.ClickEffect | components/pdf-download-button.tsx:21-32 | the alert exactly when generation fails; otherwise the document goes to save under the file name for download, and to open for preview |
| PdfDownloadButton.PdfButton.HandleGeneratePdf | components/pdf-download-button.tsx:18-36 | one click has one effect for the watermarked document (corrected body font), and the busy flag goes true and then false on every outcome |
| AddPost.AddTagRule | app/dashboard/add-post/page.tsx:52-59 | adding appends the trimmed input exactly when it is non-empty and new; otherwise the list is unchanged |
| AddPost.AddTagNoDuplicates | app/dashboard/add-post/page.tsx:52-59 | adding keeps the tag list free of duplicates |
| AddPost.RemoveTagRule | app/dashboard/add-post/page.tsx:61-65 | removing keeps exactly the other tags, in order, and leaves a list without the tag alone |
| AddPost.AddThenRemove | app/dashboard/add-post/page.tsx:52-65 | removing a tag just added gives back the list before |
| AddPost.OrDefault | app/dashboard/add-post/page.tsx:99-103 | `v \|\| d` is the value when present and non-empty, and the fallback otherwise |
| AddPost.PreviewSlugAsWritten | app/dashboard/add-post/page.tsx:100 | the preview slug is the lower-cased title or "untitled-post", with each run outside `[a-z0-9]` replaced by one hyphen |
| AddPost.PreviewSlugShape | app/dashboard/add-post/page.tsx:100 | the preview slug uses only `[a-z0-9-]` and never two hyphens in a row |
| AddPost.PreviewSlugAndRouteSlug | app/dashboard/add-post/page.tsx:100 | the route's slug of a non-empty title is the preview slug with its edge hyphens dropped |
| AddPost.PreviewSlugKeepsEdge | app/dashboard/add-post/page.tsx:100 | unlike the route, the preview keeps a trailing hyphen: "Hi!" previews as "hi-" and is stored as "hi" |
| AddPost.MockPostOf | app/dashboard/add-post/page.tsx:97-115 | the mock post takes each watched field or its fallback, the preview slug, the page's current tags, the current ISO time as creation date and the fixed author "John Developer" |
| AddPost.EmptyFormFallbacks | app/dashboard/add-post/page.tsx:99-103 | an untouched form previews with every fallback and the slug "untitled-post" |
| AddPost.PreviewEffect | app/dashboard/add-post/page.tsx:95-127 | the preview is the click effect of the mock post's watermarked document, saved as the preview slug with ".pdf" |
| AddPost.AddPostPage.constructor | app/dashboard/add-post/page.tsx:25-31 | a fresh page has no tags, an empty input, no message and no pending call |
| AddPost.AddPostPage.AddTag | app/dashboard/add-post/page.tsx:52-59 | the list follows the add rule; on success the input is cleared and the form mirrors the list, and otherwise nothing changes; flags, messages, calls, effects and flag logs are untouched |
| AddPost.AddPostPage.RemoveTag | app/dashboard/add-post/page.tsx:61-65 | the list loses every copy of the tag, and the form mirrors it; input, flags, messages, calls, effects and flag logs are untouched |
| AddPost.AddPostPage.OnSubmit | app/dashboard/add-post/page.tsx:67-90 | without a non-empty token there is no call and the error is set; otherwise one call with the page's tags and the token, then success or the error; the busy flag goes true and then false; tags, input, the PDF flag and the effects are untouched |
| AddPost.AddPostPage.GeneratePdf | app/dashboard/add-post/page.tsx:92-131 | one preview effect for the mock post, with the tags as they were, and the busy flag goes true and then false; tags, input, messages, calls and the submit flag are untouched |
| PostsPage.FilteredMembers | app/dashboard/posts/page.tsx:103-107 | a post is listed exactly when its lower-cased title contains the lower-cased query and the status filter is "all" or its status; never more posts than there are |
| PostsPage.EmptyQueryListsAll | app/dashboard/posts/page.tsx:103-107 | an empty query with "all" lists every post, in order |
| PostsPage.CountsAddUp | app/dashboard/posts/page.tsx:157-169 | the "Published" and "Drafts" cards add up to "Total Posts" |
| PostsPage.TotalViewsIncludes | app/dashboard/posts/page.tsx:175 | each post's views are part of the total |
| PostsPage.DeleteRemoves | app/dashboard/posts/page.tsx:116 | a delete keeps exactly the posts with another id, and leaves the list alone when no post has the id |
| PostsPage.PostsPage.constructor | app/dashboard/posts/page.tsx:91-101 | the page starts with the given posts and nothing being deleted |
| PostsPage.PostsPage.HandleDelete | app/dashboard/posts/page.tsx:109-123 | without a token there is no call; otherwise one call with the id and token, and the post leaves the list unless it fails; `deletingId` is the id during the call and null after |

## Left out

- jsPDF is modelled as the placements it is asked to draw. Fonts, glyph metrics and the serialisation of the file are not modelled. `splitTextToSize` and the page size are host parameters, so wrapping correctness is not proved.
- `downloadPDF` and `openPDFInNewTab` (lib/pdf-generator.ts:81-89) are recorded as the `Saved` and `Opened` effects. Saving the file, blob URLs and opening a window are not modelled.
- PdfDownloadButton.PdfButton.HandleGeneratePdf: uses the corrected renderer, not the one the source calls (Findings).
- AddPost.AddPostPage.GeneratePdf: uses the corrected renderer, not the one the source calls (Findings).
- AddPost.PreviewEffect: renders the mock post with the corrected renderer, while the source's `generatePDF` calls `generateBlogPDF` as written (app/dashboard/add-post/page.tsx:117). For a post whose body crosses a page break, the source draws the later body lines at 50pt and the model at 11pt (Findings).
- AddPost.AddPostPage.GeneratePdf: renders before raising the busy flag. Rendering writes no field of the page, so no outcome changes.
- The dynamic `import("jspdf")` and `import("./auth")` are not modelled; they are treated as always succeeding.
- The network is an input. `fetch`, response status, headers and `response.json()` are given as data. The 5-second `AbortController` timeout of the statistics request counts as a rejected fetch.
- `getBlogBySlug`, `createBlog`, `deleteBlog` and the rest of lib/api.ts outside the listed members are not modelled. Where a page calls `createBlog` or `deleteBlog`, the call is recorded with its arguments and its failure is the input `createFails` or `deleteFails`.
- Api.Login: the request code after the `return` in `login` (lib/api.ts:47-60) is unreachable and not modelled.
- Auth.MockLogin: the one-second delay is not modelled, and one clock reading `now` serves both `Date.now()` calls.
- `Date.now()`, `new Date().toISOString()` and `toLocaleDateString()` are inputs (`now`, `isoNow`, `Host.localeDate`).
- StructuredData.ArticleOf: `copyrightYear` is left out because it needs calendar arithmetic. The fixed publisher, author URL, language and `@context` fields are left out because they hold no logic.
- Zod's `email()` and `url()` checks are the predicates `isEmail` and `isUrl`. String lengths count UTF-16 code units as Dafny characters.
- `toLowerCase()` and `trim()` are modelled on ASCII letters and ASCII whitespace only. Unicode case mapping and Unicode spaces are not modelled.
- JSON numbers are reals: there is no NaN and no infinity.
- CreateRoute.Post: a title that is not a string makes `toLowerCase` throw. This is modelled as the 500 response.
- CreateRoute.NewBlog: the source reads the clock three times, for `id`, `createdAt` and `updatedAt` (app/api/v1/blogs/create/route.ts:26,37-38). The model uses one reading `now` for the id and one ISO timestamp `isoNow` for both dates, so the two dates are always equal.
- The created post's id is the clock reading `now` itself.
- React rendering, styling, effects dependencies and re-renders are not modelled. Components are the state they keep and the values they render.
- The timed redirects after a successful login and after creating a post (app/auth/login/page.tsx:60-63, app/dashboard/add-post/page.tsx:81-83) and `window.location.reload()` are not modelled. LoginPage.LoginPage.OnSubmit states that the route is unchanged when the call returns.
- Navbar.NavbarState.HandleLogout: the page reload after `router.push("/")` is not modelled.
- Concurrency between clicks is not modelled: each handler runs to completion. The delete handler's closure over a stale `posts` list is not modelled either.
- The mock post's `id`, `views`, `isFeatured`, `status`, `updatedAt` and author avatar (app/dashboard/add-post/page.tsx:98-114) are not read by the renderer and are left out.
- The add-post page's `previewMode` toggle (app/dashboard/add-post/page.tsx:30) only switches what is rendered and is left out.
- The mock post list of the "My Posts" page (app/dashboard/posts/page.tsx:27-88) is not reproduced. The page is modelled for any list of posts.
- The "Total Views" card's `toLocaleString()` formatting (app/dashboard/posts/page.tsx:175) is not modelled; the model keeps the number.

## Findings

| source | as written | input that shows it | evidently intended | confidence | as-written member | corrected member |
|---|---|---|---|---|---|---|
| lib/pdf-generator.ts:58-69 | with the watermark on, a page break sets the font size to 50 for the stamp and restores only the colour, so every body line after the first break is drawn at 50pt | `OneLinePost` on `ShortPageHost` (a page 50 high, so the body starts past the limit): the line "x" lands on page 2 at 50pt | body text at the 11pt set at line 49 on every page | not executed | PdfPagination.OversizedLineAfterBreak, PdfPagination.BodyFontAsWritten, PdfGenerator.GenerateBlogPdf | PdfPagination.BodyFontCorrected, PdfGenerator.GenerateBlogPdfCorrected |
| lib/api.ts:72 | `return response.json()` inside `try` is not awaited, so a body that fails to parse rejects after the `catch` has been left and reaches the caller | `Fetched(true, Failure("SyntaxError"))`: an ok status with an unparsable body | the empty-list fallback on every failure, as for a rejected fetch or a bad status | not executed | Api.GetBlogs, Api.UnparsableListBody | Api.GetBlogsCorrected, Api.GetBlogsAgree |

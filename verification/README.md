# Blog client: validation and post-state rules, in Dafny

This project models the logic inside a React single-page blog client. The
components' rendering and HTTP plumbing are not modelled. What is modelled:

- the registration page's validator and submit handler;
- the dashboard's title search, "Load More" counter and list update/delete;
- the post card's reaction toggle, its author-preserving merge of server
  responses, its content preview and its owner controls;
- the detail page's fetch, reaction and comment handlers, and its
  loading / not-found / loaded views.

Each server call is a parameter `Outcome<T>` (`Success(data)` or `Failure`):
the server's answer, had it been asked. Each handler returns the request it
sent (or `None`). Its contract says what changes on success and what stays put
on failure. The signed-in user is an input
`SessionUser = NoSession | NoIdInToken | User(id)`. Its three values mirror
the JavaScript `null`, `undefined` and a string id.

Modules, one per component:

- `JsText` (jstext.dfy): the string primitives the components call. These are
  `\s`, `toUpperCase`/`toLowerCase` on ASCII, `includes` and `trim`.
- `Posts` (posts.dfy): the shared data model (`Post`, `Reaction`, `Author`,
  `Comment`), the reaction toggle and the lookup of the user's existing
  reaction. The card and the detail page each write these rules out; here
  they are defined once.
- `Register` (register.dfy): `validate` as a function; the page as the class
  `RegisterPage`.
- `DashboardPage` (dashboard.dfy): the list transforms as functions; the page
  as the class `Dashboard`.
- `PostCardView` (post_card.dfy): the merge, the preview and the owner check;
  the card as the class `PostCard`. A handler that would call `onUpdate` or
  `onDelete` returns that value instead. `Dashboard.OnUpdate` and
  `Dashboard.OnDelete` apply it.
- `PostDetailsPage` (post_details.dfy): the page as the class `PostDetails`.

Behaviours of the code that are easy to miss:

- Only the card carries the author forward. The detail page stores each
  response as it is (src/pages/PostDetails.jsx:57, :69).
- Only the detail page rejects a blank comment. The card sends its draft
  unchecked (src/components/PostCard.jsx:59).
- The registration email field is `type="email"` in a form without
  `noValidate` (src/pages/Register.jsx:78, :98). The browser refuses a
  non-empty value that is not an HTML e-mail address before `submit` runs, so
  "Invalid email format" only appears for addresses such as "a@b" that the
  browser accepts and the pattern does not.
- The edit form's "both non-empty" rule is the HTML `required` attribute on
  its two inputs (src/components/PostCard.jsx:129, :136). Whitespace-only
  values pass it.
- The "Load More" counter itself is never capped, and a new search does not
  reset it. Only the slice is capped at the filtered length.

## Model

| member | source | states |
|---|---|---|
| `JsText.UpperChar` | src/pages/Register.jsx:23 | `toUpperCase` changes a character exactly when it is an ASCII lower-case letter, and then yields the matching capital |
| `JsText.LowerChar` | src/pages/Dashboard.jsx:44 | `toLowerCase` changes a character exactly when it is an ASCII capital, and then yields the matching lower-case letter |
| `JsText.ToLower` | src/pages/Dashboard.jsx:44 | lowering a string keeps its length and lowers each character in place |
| `JsText.Includes` | src/pages/Dashboard.jsx:44 | `h.includes(n)` holds exactly when some window of `h` equals `n` |
| `JsText.IncludesEmpty` | src/pages/Dashboard.jsx:44 | every string includes the empty string |
| `JsText.TrimStart` | src/pages/PostDetails.jsx:66 | the result is a suffix of the input, everything dropped is whitespace, and it starts with a non-space (or is empty) |
| `JsText.TrimEnd` | src/pages/PostDetails.jsx:66 | the result is a prefix of the input, everything dropped is whitespace, and it ends with a non-space (or is empty) |
| `JsText.TrimEmptyIffBlank` | src/pages/PostDetails.jsx:66 | `s.trim()` is empty exactly when every character of `s` is whitespace |
| `Posts.Count` | src/pages/PostDetails.jsx:153 | `xs?.length \|\| 0`: 0 for a missing list, else its length (also the card's initial like count and the comment count) |
| `Posts.Toggle` | src/components/PostCard.jsx:40 | pressing type t gives no reaction exactly when the reaction was t, and t otherwise; so the result is always none or the pressed type (same rule at src/pages/PostDetails.jsx:55) |
| `Posts.ToggleTwice` | src/components/PostCard.jsx:40 | two presses of the same type end with no reaction, unless the reaction was already that type, which comes back |
| `Posts.FindByUser` | src/components/PostCard.jsx:31-33 | `likes.find(...)` finds nothing exactly when no like is the current user's, and otherwise returns the user's first like |
| `Posts.SyncedReaction` | src/components/PostCard.jsx:30-35 | the existing-reaction effect: with a matching like, the reaction becomes the type of the first one; with no likes list or no match, the reaction is left as it was (same effect at src/pages/PostDetails.jsx:43-46) |
| `Posts.NoIdFindsNothing` | src/components/PostCard.jsx:31-34 | a session with no token, or a token without an id, never picks up a reaction |
| `Register.Form.With` | src/pages/Register.jsx:12-13 | `handleChange` sets the edited field to the typed value and keeps the other two |
| `Register.NameError` | src/pages/Register.jsx:19-25 | the name gets the first failing rule's message (empty, then under 3 characters, then a lower-case first letter). A name passes exactly when it has at least 3 characters and does not start with `a`-`z`, so "Bob" and "1ab" pass |
| `Register.EmailRegexIff` | src/pages/Register.jsx:27 | the pattern `^[^\s@]+@[^\s@]+\.[^\s@]+$` matches exactly when the string has no whitespace and a single `@` with something before it, and after the `@` there is a `.` with a character on each side |
| `Register.EmailError` | src/pages/Register.jsx:28-32 | "Email is required" exactly for the empty email; "Invalid email format" exactly for a non-empty email that breaks the pattern; no error exactly when the pattern holds |
| `Register.PasswordError` | src/pages/Register.jsx:34-40 | first failing rule: empty, then under 5 characters, then no `A`-`Z` anywhere. A password passes exactly when it has at least 5 characters and an ASCII capital ("Abcde" passes, "abcde" fails on the capital) |
| `Register.Validate` | src/pages/Register.jsx:16-43 | a field is in the map exactly when its own rules fail, with that rule's message; the map is empty exactly when all three fields pass |
| `Register.FieldIndependence` | src/pages/Register.jsx:16-43 | two forms that agree on a field agree on whether that field has an error, and on the message |
| `Register.ValidIff` | src/pages/Register.jsx:16-43 | the form is accepted exactly when the name, email and password conditions above all hold |
| `Register.SampleForms` | src/pages/Register.jsx:16-43 | "bob" fails on the name only; "bad" fails on the email only; "abcde" fails on the password only; "Bob"/"a@b.com"/"Abcde" and "1ab"/"a@b.com"/"Abcde" are accepted |
| `Register.BrowserCheckedEmailError` | src/pages/Register.jsx:27-32 | for an address the browser's `type="email"` check lets through, "Invalid email format" is shown exactly when no dot follows the `@`; every other such address passes the pattern |
| `Register.BrowserRefusesSamples` | src/pages/Register.jsx:98 | the browser refuses "bad" and "a@b..com" before `submit` runs, although the pattern alone accepts "a@b..com" |
| `Register.BrowserPassesDotless` | src/pages/Register.jsx:98 | the browser lets "a@b" through, and the pattern then reports "Invalid email format" |
| `Register.BrowserPassesPlain` | src/pages/Register.jsx:98 | "a@b.com" passes both the browser's check and the pattern |
| `Register.ServerMessage` | src/pages/Register.jsx:61-64 | the message for a rejected registration is never empty: `data.message` when it is a non-empty string, else the first `errors[].msg` when that is one, else "Something went wrong" |
| `Register.RegisterPage.constructor` | src/pages/Register.jsx:7-10 | empty form, no errors, no server message, not loading |
| `Register.RegisterPage.HandleChange` | src/pages/Register.jsx:12-13 | only the form changes, in the edited field |
| `Register.RegisterPage.Submit` | src/pages/Register.jsx:45-69 | pressing "Sign Up": when the browser refuses a non-empty email as an HTML e-mail address (`type="email"`, :98), nothing runs and nothing changes. Otherwise, with any validation error: no request is sent, the errors are recorded, the server message is cleared and loading is untouched. Otherwise the form is sent. Success redirects to the login page; a rejection shows `ServerMessage`. Loading is false afterwards in both outcomes |
| `DashboardPage.Filter` | src/pages/Dashboard.jsx:43-45 | `filter` keeps exactly the entries that pass, in their original order (a subsequence), each as many times as it occurs |
| `DashboardPage.FilterKeepsAll` | src/pages/Dashboard.jsx:43-45 | when every entry passes, the filter returns the list unchanged |
| `DashboardPage.FilterByTitle` | src/pages/Dashboard.jsx:43-45 | the filtered posts are an order-preserving subsequence of `posts`; a post is in it exactly when its lower-cased title contains the lower-cased search, as often as in `posts` |
| `DashboardPage.EmptySearchKeepsAll` | src/pages/Dashboard.jsx:43-45 | an empty search returns every post, in order |
| `DashboardPage.FilterEmptyIff` | src/pages/Dashboard.jsx:43-45 | the search finds nothing exactly when no title matches |
| `DashboardPage.ReplaceById` | src/pages/Dashboard.jsx:119-125 | the update keeps the length and order: entries with the updated id become the updated post, all others are unchanged |
| `DashboardPage.ReplaceKeepsIds` | src/pages/Dashboard.jsx:119-125 | an update leaves the sequence of ids as it was |
| `DashboardPage.ReplaceUnknownId` | src/pages/Dashboard.jsx:119-125 | an update whose id is not in the list leaves the list identical |
| `DashboardPage.ReplaceIdempotent` | src/pages/Dashboard.jsx:119-125 | applying the same update twice equals applying it once |
| `DashboardPage.RemoveById` | src/pages/Dashboard.jsx:126-128 | the delete removes every entry with the id and keeps every other entry, as often as before, in its original relative order |
| `DashboardPage.RemoveAbsentId` | src/pages/Dashboard.jsx:126-128 | deleting an id not in the list leaves the list identical |
| `DashboardPage.RemoveAfterReplace` | src/pages/Dashboard.jsx:119-128 | deleting a post after updating it gives the same list as deleting it directly |
| `DashboardPage.CardUpdateKeepsAuthors` | src/pages/Dashboard.jsx:119-125 | with distinct ids, a card's merged response changes only that card's entry, to the response with the entry's own author; every entry keeps its author |
| `DashboardPage.VisibleSlice` | src/pages/Dashboard.jsx:115 | the cards shown are the first `min(visiblePosts, \|filtered\|)` filtered posts |
| `DashboardPage.VisibleSliceMonotone` | src/pages/Dashboard.jsx:115 | a larger counter shows an extension of what a smaller counter showed |
| `DashboardPage.LoadMoreOfferedIffHidden` | src/pages/Dashboard.jsx:134 | "Load More" is offered (`visiblePosts < \|filtered\|`) exactly when some filtered post is not shown |
| `DashboardPage.Dashboard.constructor` | src/pages/Dashboard.jsx:10-16 | no posts, loading, empty search, counter 6 |
| `DashboardPage.Dashboard.FinishLoading` | src/pages/Dashboard.jsx:34-40 | once the fetch settles loading is false; a response replaces the posts, a failure keeps them |
| `DashboardPage.Dashboard.SetSearch` | src/pages/Dashboard.jsx:65 | typing sets the search and nothing else (the counter is not reset) |
| `DashboardPage.Dashboard.LoadMore` | src/pages/Dashboard.jsx:137 | the counter grows by exactly 6, so it stays a positive multiple of 6 and never decreases |
| `DashboardPage.Dashboard.OnUpdate` | src/pages/Dashboard.jsx:119-125 | the posts become `ReplaceById` of the current posts |
| `DashboardPage.Dashboard.OnDelete` | src/pages/Dashboard.jsx:126-128 | the posts become `RemoveById` of the current posts |
| `DashboardPage.Dashboard.Cards` | src/pages/Dashboard.jsx:115 | the rendered cards are a prefix of the filtered posts, of length `min(visiblePosts, \|filtered\|)` |
| `DashboardPage.Dashboard.LoadMoreOffered` | src/pages/Dashboard.jsx:134 | the button is offered exactly when fewer cards are shown than posts match |
| `DashboardPage.Dashboard.View` | src/pages/Dashboard.jsx:107-168 | the loading line exactly while loading; the empty state exactly when loaded and nothing matches; otherwise the cards and the "Load More" flag |
| `PostCardView.Merge` | src/components/PostCard.jsx:47 | the merged post has the previous post's author and every other field of the response (the same merge at :64 and :80) |
| `PostCardView.MergeAllKeepsAuthor` | src/components/PostCard.jsx:47 | after any run of reactions, comments and edits, the card's post still has the author first known and every other field of the last response |
| `PostCardView.ContentPreview` | src/components/PostCard.jsx:103-107 | expanded or at most 120 characters: the whole content. Otherwise: its first 120 characters followed by "...". A collapsed preview is at most 123 characters long |
| `PostCardView.ShortContentIgnoresExpanded` | src/components/PostCard.jsx:160 | when there is no "See More" button (content of at most 120 characters), both states show the whole content |
| `PostCardView.OwnerControlsAsWritten` | src/components/PostCard.jsx:181 | `currentUserId === post.author?._id` as written: true exactly for the signed-in user whose id is the author's `_id`, and for a token without an id on a post without an author (`undefined === undefined`) |
| `PostCardView.AuthorlessPostOwnedByIdlessToken` | src/components/PostCard.jsx:181 | the check as written shows Edit/Delete on an authorless post to a token without an id; the intended check does not |
| `PostCardView.OwnerControls` | src/components/PostCard.jsx:181 | the owner controls are shown exactly to the signed-in user whose id is the author's `_id` |
| `PostCardView.OwnerChecksAgreeElsewhere` | src/components/PostCard.jsx:181 | the as-written and the intended checks agree on every other input |
| `PostCardView.PostCard.constructor` | src/components/PostCard.jsx:8-35 | the like count starts at `likes.length` (0 when absent); the reaction comes from the user's first like, else none; the edit form holds the post's title and content |
| `PostCardView.PostCard.ReceivePost` | src/components/PostCard.jsx:30-35 | a new prop re-runs only the reaction effect, and only when the likes changed; the count and the form keep their state |
| `PostCardView.PostCard.HandleReaction` | src/components/PostCard.jsx:38-53 | sends the toggled type. Failure: reaction and count unchanged, nothing reported. Success: the toggled reaction, the response's `likes.length`, and the merged post reported. A response without likes throws after the reaction is set: count unchanged, nothing reported |
| `PostCardView.PostCard.SetComment` | src/components/PostCard.jsx:268 | the draft takes the typed text |
| `PostCardView.PostCard.ToggleCommentBox` | src/components/PostCard.jsx:255 | the comment box flips between shown and hidden |
| `PostCardView.PostCard.HandleComment` | src/components/PostCard.jsx:57-70 | sends the draft unchecked. Success: the draft is cleared, the box closed and the merged post reported. Failure: nothing changes |
| `PostCardView.PostCard.StartEdit` | src/components/PostCard.jsx:181-189 | wherever the card shows its Edit button (the check as written), pressing it enters edit mode |
| `PostCardView.PostCard.CancelEdit` | src/components/PostCard.jsx:143 | leaves edit mode |
| `PostCardView.PostCard.SetForm` | src/components/PostCard.jsx:124-137 | the edit form takes the typed title and content |
| `PostCardView.PostCard.HandleEdit` | src/components/PostCard.jsx:74-87 | nothing is sent while either required input is empty. Otherwise the form is sent; success reports the merged post and leaves edit mode; failure changes nothing |
| `PostCardView.PostCard.Delete` | src/components/PostCard.jsx:181-198 | callable wherever the card shows its Delete button (the check as written); a request goes out exactly when the user confirms; the dashboard is told `post._id` exactly when the confirmed request succeeded |
| `PostCardView.PostCard.ToggleExpanded` | src/components/PostCard.jsx:162 | "See More"/"See Less" flips the expanded flag |
| `PostCardView.PostCard.Preview` | src/components/PostCard.jsx:103-107 | expanded: the full content; collapsed: at most 123 characters |
| `PostCardView.PostCard.ShowsOwnerControls` | src/components/PostCard.jsx:181 | the Edit and Delete buttons appear exactly for the signed-in user whose id is the author's, and also for a token without an id on an authorless post |
| `PostDetailsPage.AcceptsComment` | src/pages/PostDetails.jsx:66 | a comment is sent only when it has a character that is not whitespace; the empty draft never is |
| `PostDetailsPage.SampleComments` | src/pages/PostDetails.jsx:66 | "" and "  \t\n" are refused, " hi " is accepted |
| `PostDetailsPage.PostDetails.constructor` | src/pages/PostDetails.jsx:10-13 | no post, loading, empty draft, no reaction |
| `PostDetailsPage.PostDetails.FinishFetch` | src/pages/PostDetails.jsx:36-50 | loading is false once the fetch settles. A response becomes the post, and its likes set the reaction; a failure leaves post and reaction as they were |
| `PostDetailsPage.PostDetails.SetComment` | src/pages/PostDetails.jsx:187 | the draft takes the typed text |
| `PostDetailsPage.PostDetails.HandleReaction` | src/pages/PostDetails.jsx:53-62 | with a post, sends the toggled type; success replaces the post with the response exactly (no author carried over) and keeps the toggled reaction; failure changes nothing; without a post nothing is sent |
| `PostDetailsPage.PostDetails.HandleComment` | src/pages/PostDetails.jsx:65-74 | a blank draft sends nothing and changes nothing. Otherwise the draft is sent as typed; success replaces the post with the response exactly and clears the draft; failure keeps both |
| `PostDetailsPage.PostDetails.View` | src/pages/PostDetails.jsx:87-103 | loading while loading; "Post not found" exactly when loaded without a post; otherwise the post with like and comment counts (`xs?.length \|\| 0`, src/pages/PostDetails.jsx:153, :202) and the reaction |

## Left out

- HTTP transport, `../services/api`, the console logging in the `catch`
  blocks, and the `err` objects beyond the registration error body: each call
  is an `Outcome` parameter.
- JWT decoding (`jwtDecode`, `decoded.user?.id || decoded.id`): the session
  user is an input.
- `localStorage` (token, theme), the dark-mode effects, the routing guard and
  redirects in src/App.jsx, and the navigation calls other than the
  registration redirect (recorded as a flag).
- Login, post creation with image upload, the footer and the blog list:
  an API call plus an error fallback, a foreign upload, and static markup.
- `formatDate`: it depends on `Date` and on the locale.
- Post fields used only for display (`image`, `createdAt`): the merge copies
  them like every other non-author field.
- Hover menus and the JSX and CSS rendering, beyond the view functions.
- `JsText.UpperChar`: case mapping covers ASCII only. JavaScript's
  `toUpperCase` also changes non-ASCII lower-case letters (so "éva" fails the
  name rule in the browser but passes here).
- `JsText.ToLower`: ASCII only, for the same reason.
- `Register.NameError`: the length rule counts Unicode scalar values, where
  `name.length` counts UTF-16 code units. A name such as "😀a" is 3 units long
  in JavaScript and passes there (upper-casing a lone surrogate leaves it
  unchanged), but gets "Name must be at least 3 characters" here.
- `Register.PasswordError`: the length rule counts Unicode scalar values, where
  `password.length` counts UTF-16 code units. "😀😀A" is 5 units long and has a
  capital, so JavaScript accepts it; here it gets "Password must be at least 5
  characters".
- `Register.HtmlEmail`: the browser's e-mail check is the ASCII grammar of the
  HTML standard. Browsers that first convert an internationalised domain to
  its ASCII form, and the browser's trimming of surrounding whitespace from the
  field's value, are not modelled.
- `PostCardView.ContentPreview`: lengths count Unicode scalar values.
  JavaScript counts UTF-16 code units, so content with characters outside the
  Basic Multilingual Plane is cut at a different place.
- `PostCardView.PostCard.ReceivePost`: React re-runs the reaction effect when
  the `likes` array is a new object. The model re-runs it when the new likes
  differ by value.
- The stale list captured by the dashboard's `posts.map`/`posts.filter`
  closures when responses overlap: this is concurrency, so each update is
  applied to the current list.
- A detail-page fetch whose response body is `null`: the server contract has
  `GET /posts/:id` return a post or fail.
- Registration error bodies with non-string `message` or `msg` values: the
  model types them as optional strings.

## Findings

| source | as written | input that shows it | evidently intended | confidence | as-written member | corrected member |
|---|---|---|---|---|---|---|
| src/components/PostCard.jsx:181 | `currentUserId === post.author?._id` is also true when both sides are `undefined` | a token that decodes without `user.id` or `id`, and a post whose response lacks `author`: Edit and Delete are shown | controls only for a signed-in user whose id is the author's | medium, not executed | `PostCardView.AuthorlessPostOwnedByIdlessToken` | `PostCardView.OwnerControls` |

The card class keeps the check as written (`PostCard.ShowsOwnerControls`,
`PostCard.StartEdit`, `PostCard.Delete`), so the model shows what the page
does; `OwnerControls` is the check the page evidently means, and
`OwnerChecksAgreeElsewhere` bounds the difference to that one input.

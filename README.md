# learn-next: blog and note APIs in Dafny

This project models the server-side core of two small Next.js applications:

- **app2-blog.** The `/api/posts` route lists posts and creates them.
  - The listing normalises `page` and `limit` and filters on `published` and `categoryId`.
  - It orders by `createdAt` descending, cuts a page out with `skip`/`take` and reports `totalPages`.
  - Creation stamps `publishedAt` on published posts and maps storage errors to HTTP statuses.
  - The `/api/categories` route lists categories with their post counts.
  - `categorySchema` validates category input.
  - The `Pagination` component renders the arrows and page links under a listing.
- **app1-note.** The `/api/notes` route lists notes newest first and creates them after validating them with `noteSchema`.

The database (Prisma), the request body parser and the clock are not code this model can see. A request body is a JSON `Schema.Value`. The outcome of `postSchema`, the current time, the new record's id and whether storage fails are all parameters. The tables are sequences held by the `Blog.BlogStore` and `Notes.NoteStore` classes. Creating a record appends to them under a store invariant: ids are distinct, post slugs are distinct and every post's category exists. The unique-key and foreign-key violations are Prisma's error codes `P2002` and `P2003`.

Modules:

- `Wrappers`: `Option`, `Result`.
- `Schema`: JSON values and validation issues in the style of zod, which reports every failing check of a field.
- `Ordering`: the newest-first order that `orderBy: { createdAt: "desc" }` promises, and an insertion sort that meets it.
- `Decimal`: integers written in decimal, and the parser that reads them back.
- `CategorySchema`: `categorySchema`.
- `Blog`: entities, the store invariant and the `POST /api/posts` handler.
- `PostListing`: `GET /api/posts`.
- `CategoryListing`: `GET /api/categories`.
- `Pagination`: the pagination component.
- `Notes`: the note routes.
- `Seed`: the seeded blog data as a witness.

## Model

| member | source | states |
|---|---|---|
| PostListing.EffectivePage | app2-blog/src/app/api/posts/route.ts:12 | the page is the requested page, or 1 when absent, raised to at least 1; it equals the request when that is at least 1 |
| PostListing.EffectiveLimit | app2-blog/src/app/api/posts/route.ts:13 | the limit is the requested limit, or 10 when absent, capped at 100 and never raised: a request of 0 or below comes back unchanged; the limit is at least 1 iff the request is absent or at least 1 |
| PostListing.BuildWhere | app2-blog/src/app/api/posts/route.ts:15-21 | a post matches the filter iff its `published` equals (param == "true") when that param is given, and its category id equals `categoryId` when that param is given; an absent param does not constrain |
| PostListing.FilterPosts | app2-blog/src/app/api/posts/route.ts:24-25 | a post is in the result iff it is in the table and matches the filter; the result is no longer than the table |
| PostListing.CountIsFilterLength | app2-blog/src/app/api/posts/route.ts:31 | `count({ where })` equals the number of posts `findMany({ where })` would return before paging |
| PostListing.Window | app2-blog/src/app/api/posts/route.ts:28-29 | skip/take returns the elements at positions skip .. skip+take-1 that exist, and at most take of them |
| PostListing.TotalPages | app2-blog/src/app/api/posts/route.ts:39 | `Math.ceil(totalCount / limit)`: the smallest page count whose pages hold every post; zero exactly when there are no posts |
| PostListing.TotalPagesExamples | app2-blog/src/app/api/posts/route.ts:39 | 0 posts give 0 pages, 25 and 30 posts at limit 10 give 3, 8 posts at limit 100 give 1 |
| PostListing.Join | app2-blog/src/app/api/posts/route.ts:26 | each listed post carries the category its `categoryId` names (`include: { category: true }`) |
| PostListing.ListPosts | app2-blog/src/app/api/posts/route.ts:8-41 | normalised page and limit; totalCount is the number of matching posts; totalPages is ceil(totalCount/limit); at most `limit` posts, each matching, stored and joined with its category, newest first; the posts are exactly the page window of some newest-first ordering of all matches |
| PostListing.GetPosts | app2-blog/src/app/api/posts/route.ts:8-45 | 200 with the listing when storage answers, 500 with the fetch-failed message when it fails |
| PostListing.PagePastEndIsEmpty | app2-blog/src/app/api/posts/route.ts:23-39 | a page whose offset is at or past the number of matching posts returns no posts, and totalCount still counts every match |
| PostListing.TotalCountIgnoresWindow | app2-blog/src/app/api/posts/route.ts:23-31 | two queries with the same filter report the same totalCount, whatever page and limit they ask for |
| PostListing.EveryMatchOnSomePage | app2-blog/src/app/api/posts/route.ts:23-39 | for any one newest-first order of the matches, every matching post lies in the window of some page between 1 and totalPages cut from that order |
| Ordering.SortNewestFirst | app1-note/src/app/api/notes/route.ts:13-17 | the result is ordered by creation time descending and is a permutation of the input |
| Blog.NewPost | app2-blog/src/app/api/posts/route.ts:54-58 | the stored post carries the validated fields; publishedAt is set iff the post is published, to the creation time |
| Blog.InsertViolation | app2-blog/src/app/api/posts/route.ts:54-59 | the insert fails with P2002 when the id or slug is taken, P2003 when the category does not exist, a plain error when storage is down; it succeeds iff none of these hold |
| Blog.InsertKeepsConsistent | app2-blog/src/app/api/posts/route.ts:54-59 | appending a post that raises no violation keeps ids and slugs unique and every category reference valid |
| Blog.CreateErrorReply | app2-blog/src/app/api/posts/route.ts:62-74 | validation errors give 400 with details; P2002 gives 409; P2003 gives 400; anything else gives 500; details are present iff the error is a validation error |
| Blog.BlogStore.CreatePost | app2-blog/src/app/api/posts/route.ts:49-75 | replies 201 with the new post iff the body parsed and the insert raised no violation, and then appends exactly that post; otherwise the table is unchanged and the reply is the mapped error; the store invariant holds throughout |
| Schema.NonEmptyTextIssues | app2-blog/src/lib/validation.ts:4 | no issue iff the field is a non-empty string; every issue is on that field |
| CategorySchema.SlugPatternMeaning | app2-blog/src/lib/validation.ts:5 | the regex `^[a-z0-9-]+$` matches iff the slug is non-empty and every character is a lower-case letter, a digit or a hyphen |
| CategorySchema.SlugIssues | app2-blog/src/lib/validation.ts:5 | no issue iff the slug is a string matching the pattern; issues are on `slug` only |
| CategorySchema.ValidateCategory | app2-blog/src/lib/validation.ts:3-7 | Ok iff the body is an object whose name, slug and description satisfy their rules, and then the value carries exactly those fields; otherwise at least one issue, and the issue paths are exactly the failing fields; a non-object gives a single type issue |
| CategorySchema.NameRule | app2-blog/src/lib/validation.ts:4 | with a valid slug, the category is accepted iff the name is non-empty |
| CategorySchema.SlugRule | app2-blog/src/lib/validation.ts:5 | with a valid name, the category is accepted iff the slug matches the pattern |
| CategorySchema.ForbiddenCharacterRejected | app2-blog/src/lib/validation.ts:5 | a slug holding any character outside a-z, 0-9 and '-' (an upper-case letter, a space, an underscore, a non-ASCII character) is rejected |
| CategorySchema.HyphensUnrestricted | app2-blog/src/lib/validation.ts:5 | "-" is accepted, and for any valid slug s so are s + "-", "-" + s and s + "--" + s: hyphens may lead, trail and repeat |
| CategorySchema.EmptySlugReportsBoth | app2-blog/src/lib/validation.ts:5 | an empty slug draws both the too-small and the invalid-string issue |
| CategorySchema.DescriptionRule | app2-blog/src/lib/validation.ts:6 | an absent or string description is accepted and kept; null draws a type issue on `description` |
| CategorySchema.SeededSlugsValid | app2-blog/prisma/seed.ts:23-47 | the four seeded category slugs satisfy the pattern |
| CategoryListing.WithCounts | app2-blog/src/app/api/categories/route.ts:7-13 | one entry per category, each with the number of posts that reference it; the model lists them in table order |
| CategoryListing.GetCategories | app2-blog/src/app/api/categories/route.ts:5-22 | 200 with the counted listing when storage answers, 500 with the fetch-failed message when it fails |
| CategoryListing.EachCategoryOnce | app2-blog/src/app/api/categories/route.ts:7-13 | with distinct category ids, every category appears exactly once in the listing |
| CategoryListing.CountsSumToPostTotal | app2-blog/src/app/api/categories/route.ts:8-12 | in a consistent store the post counts add up to the number of posts |
| CategoryListing.CountAgreesWithListing | app2-blog/src/app/api/categories/route.ts:8-12 | a category's count equals the totalCount of the posts listing filtered on that category |
| Seed.SeedIsConsistent | app2-blog/prisma/seed.ts:20-165 | the seeded categories and posts satisfy the store invariant |
| Seed.SeededCategoryCounts | app2-blog/prisma/seed.ts:58-163 | the seeded category counts are 3, 3, 2 and 3, totalling 11 |
| Seed.SeededPublishedCount | app2-blog/prisma/seed.ts:58-163 | eight of the eleven seeded posts are published |
| Seed.SeededPublicListing | app2-blog/src/app/api/posts/route.ts:12-39 | on the seed, the public listing with default paging reports page 1, limit 10, 8 posts, 1 page |
| Seed.SeededThreePerPage | app2-blog/src/app/api/posts/route.ts:12-39 | on the seed, page 5 of the public listing at limit 3 reports 8 posts over 3 pages |
| Decimal.IntRoundTrip | app2-blog/src/components/pagination.tsx:19 | a page number interpolated into a URL reads back as the same integer |
| Pagination.HrefRoundTrip | app2-blog/src/components/pagination.tsx:25 | a page href parses back to its page and, when one is given, its category |
| Pagination.HrefInjective | app2-blog/src/components/pagination.tsx:25 | different pages or categories give different hrefs |
| Pagination.PreviousArrowTarget | app2-blog/src/components/pagination.tsx:15-19 | the left arrow is disabled iff page <= 1, and otherwise links to page - 1 with the same category |
| Pagination.NextArrowTarget | app2-blog/src/components/pagination.tsx:28-32 | the right arrow (corrected; see ## Findings) is disabled iff page >= totalPages, and otherwise links to page + 1 with the same category |
| Pagination.PageLinks | app2-blog/src/components/pagination.tsx:24-25 | one link per page 1 .. totalPages, the i-th pointing at page i + 1 with the same category |
| Pagination.Render | app2-blog/src/components/pagination.tsx:12-39 | arrow enablement as above, arrow targets page - 1 and page + 1 (the right arrow corrected; see ## Findings), and exactly totalPages page links, each to its own page |
| Pagination.LinksDistinct | app2-blog/src/components/pagination.tsx:24-25 | the page links have pairwise different hrefs |
| Pagination.EnabledArrowsStayInRange | app2-blog/src/components/pagination.tsx:15-32 | on a page within 1 .. totalPages, every enabled arrow points at a page within 1 .. totalPages |
| Pagination.EmptyListingHasNoNavigation | app2-blog/src/components/pagination.tsx:15-29 | on page 1 with no pages, both arrows are disabled and no page link is shown |
| Pagination.NextArrowAgreesWithoutCategory | app2-blog/src/components/pagination.tsx:32 | without a category the right arrow as written and the corrected one coincide |
| Pagination.NextArrowAsWrittenGoesBack | app2-blog/src/components/pagination.tsx:32 | with a category the right arrow as written points at page - 1, not page + 1 |
| Pagination.NextArrowAsWrittenExample | app2-blog/src/components/pagination.tsx:32 | page 1 of 2 in category "tech": as written "/?page=0&categoryId=tech", intended "/?page=2&categoryId=tech" |
| Notes.ValidateNote | app1-note/src/app/api/notes/route.ts:5-8 | Ok iff the body is an object with non-empty string title and content, and then the value is exactly those two fields; otherwise the issue paths are exactly the failing fields |
| Notes.ListNotes | app1-note/src/app/api/notes/route.ts:11-27 | 200 with every note, newest first, when storage answers; 500 with the fetch-failed error otherwise |
| Notes.CreateFailureReply | app1-note/src/app/api/notes/route.ts:40-53 | validation errors give 400 with details; every other failure gives 500 without details |
| Notes.NoteStore.Create | app1-note/src/app/api/notes/route.ts:30-54 | replies 201 with the new note iff the body parsed, passed validation, storage was up and the id was free, and then appends exactly that note; otherwise the table is unchanged; ids stay distinct |
| Notes.EmptyBodyReportsBothFields | app1-note/src/app/api/notes/route.ts:5-8 | an empty object draws issues on both title and content |
| Notes.ExtraFieldsDropped | app1-note/src/app/api/notes/route.ts:5-8 | keys other than title and content are accepted and stripped |

## Left out

- The conversion of `page` and `limit` with `Number(...)` is not modelled. Non-numeric text gives `NaN` and fractions pass through. The model takes the parameters as optional integers.
- PostListing.ListPosts: requires a limit of at least 1, and so do `PostListing.GetPosts` and `PostListing.Skip`. The model does not describe the replies for a requested limit below 1. For a limit of 0 the handler answers 200 with an empty page, and `Math.ceil(n / 0)` is `Infinity`, or `NaN` when n is 0, which JSON writes as `null`. A negative limit gives a negative skip from page 2 on, and a negative or zero `totalPages`, so what the database answers is not a property of these routes.
- JavaScript numbers are doubles, and the model uses unbounded integers. For pages above 2^53, `page - 1`, `page + 1` and `(page - 1) * limit` round in the source. From 1e21 up, `${page}` prints in exponent form such as "1e+21", so `Decimal.IntRoundTrip` does not describe those hrefs.
- `postSchema` is not part of this model. Its field rules are unknown here. The create handler takes the outcome of reading and parsing the body as a parameter: unreadable, rejected with issues, or accepted input.
- Blog.BlogStore.CreatePost: sets `createdAt` and `publishedAt` from one `now`. In the source, `publishedAt` comes from the server clock and `createdAt` from the database default.
- The two queries run by `Promise.all` are modelled as reads of one state. Writes that happen between them are not modelled.
- Prisma's order among posts with equal `createdAt` is unspecified. The listing promises only some newest-first order and leaves ties open.
- PostListing.EveryMatchOnSomePage: holds when all pages are cut from one order. Each page is a separate query in the source, and with tied `createdAt` two queries need not agree on an order. Two posts a and b with equal `createdAt` at limit 1 could give [a] on page 1 and [a] on page 2, so b appears on no page. The seed's posts all share one `createdAt`.
- CategoryListing.WithCounts: lists the categories in table order. The query in app2-blog/src/app/api/categories/route.ts:7 has no `orderBy`, so the database's order is unspecified.
- Blog.InsertViolation: checks the unique keys before the foreign key. The source does not fix which error the database reports first. A post with a taken slug and a missing category gets 409 in the model; the database might answer P2003 and 400.
- Logging (`console.error`) is not modelled. Messages are tags, not the Japanese strings. zod's `details` are the list of issues, each with a path and a code; the JSON text of `error.message` is not modelled.
- JSON serialisation of responses is not modelled, including dates as ISO strings.
- The markup and styling of the pagination component are not modelled; only the arrow state and the hrefs are.
- Hrefs are built without URL encoding, as in the source. The category is read back as everything after `&categoryId=`, so browsers' decoding of the query string is not modelled.
- The category table is never written by these routes. `Blog.BlogStore` is built from given tables.
- The other endpoints are not part of this model: post, category and note by id, update, delete, and post by slug. Nor are the React pages.
- The seeded titles, bodies and names are placeholders, and the ids are synthetic. The seed lemmas are about slugs, categories, published flags and counts.

## Findings

| source | as written | input that shows it | evidently intended | confidence | as-written member | corrected member |
|---|---|---|---|---|---|---|
| app2-blog/src/components/pagination.tsx:32 | when a category is given, the right arrow's href uses `page - 1` | page 1 of 2 with categoryId "tech" gives "/?page=0&categoryId=tech" | `page + 1` in both branches, "/?page=2&categoryId=tech" | high; not executed | Pagination.NextArrowAsWrittenGoesBack | Pagination.EnabledArrowsStayInRange |

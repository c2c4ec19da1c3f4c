# portfolio-nextjs: the admin core in Dafny

This project models the decision logic of a small Next.js portfolio site with an
admin area, and proves properties of it:

- the create-project API (`POST /api/admin/projects`). This covers its zod schema
  as a function from a JSON value to a list of issues and a parsed record. It also
  covers the `fieldErrors` loop that keeps the first message per field, and a
  project store class whose `Create` method checks slug uniqueness before it writes;
- `slugify`, with the shape of its output, idempotence and agreement with the server's
  slug pattern;
- the HTTP Basic middleware in front of `/admin` and `/api/admin` (RFC 7617);
- the admin editor form: its state class, the title-to-slug derivation until the slug
  is edited by hand, tag toggling, and the request built on submit;
- the admin project table: the case-insensitive title filter, the `q` search
  parameter and the guard in front of a delete;
- the tab bar that reads and writes one query parameter.

Files: `wrappers.dfy` (Option, Result), `js_strings.dfy` (the JavaScript string
built-ins used: `trim`, ASCII `toLowerCase`, `startsWith`, `includes`, `split`/`join`,
UTF-16 `length`), `utils.dfy`, `search_params.dfy` (`URLSearchParams` as an ordered
list of pairs), `project_schema.dfy`, `project_route.dfy`, `basic_auth.dfy`,
`admin_form.dfy`, `admin_table.dfy`, `tabs.dfy`.

Where the intended behaviour and the code disagree, the model follows the code:

- A stored title is meant never to be blank after trimming, but the schema at
  app/api/admin/projects/route.ts:6 does not trim `title`, so three spaces are an
  accepted title. The model accepts it.
- The form's initial state depends on whether a `project` prop is present, not on
  `mode` (components/AdminProjectForm.tsx:46-58).

## Model

| member | source | states |
|---|---|---|
| JsStrings.Trim | components/AdminProjectForm.tsx:94-96 | `String.prototype.trim`: the result has no ECMAScript whitespace at either end, and a string without such whitespace is returned unchanged |
| JsStrings.TrimCutsWhitespace | lib/utils.ts:4 | the trimmed string is the infix of the input that starts right after its leading whitespace, and everything after that infix is whitespace too; with the row above this determines `trim` completely |
| JsStrings.TrimIdempotent | app/api/admin/projects/route.ts:15 | trimming twice is trimming once |
| JsStrings.LowerAscii | lib/utils.ts:3 | `toLowerCase` on ASCII: same length, each character lowered pointwise |
| JsStrings.LowerAsciiNoCapitals | lib/utils.ts:3 | the lowered string contains no `A`..`Z` |
| JsStrings.Utf16Length | app/api/admin/projects/route.ts:6-12 | the `length` zod counts lies between the number of code points and twice that |
| JsStrings.Split | middleware.ts:32-35 | `split` with a one-character separator: at least one piece, no piece contains the separator, and one piece exactly when the separator is absent |
| JsStrings.SplitFirstAndRest | middleware.ts:34-35 | the first piece is the text before the first separator, and the remainder joins back to everything after it |
| JsStrings.JoinSplit | middleware.ts:35 | `split(sep).join(sep)` gives back the original string |
| JsStrings.SplitAfterPrefix | middleware.ts:34 | splitting `u + sep + rest`, with `u` free of the separator, gives `u` followed by the pieces of `rest` |
| Utils.SkipRun | lib/utils.ts:5 | dropping a run of non-alphanumerics keeps every letter and digit and stops at one |
| Utils.SkipRunDropsSeparators | lib/utils.ts:5 | what is dropped is a prefix of the input, made only of characters outside `[a-z0-9]`; what remains is the rest of the input |
| Utils.CollapseRuns | lib/utils.ts:5 | `replace(/[^a-z0-9]+/g, "-")`: empty only for empty input, and begins with a dash exactly when the input begins with a character outside `[a-z0-9]` |
| Utils.CollapseRunsShape | lib/utils.ts:5 | the collapsed string has only `[a-z0-9-]` and never two dashes in a row |
| Utils.CollapseRunsKeepsAlnums | lib/utils.ts:5 | the collapsed string has the input's letters and digits in the same order |
| Utils.CollapseRunsLastDash | lib/utils.ts:5 | the collapsed string ends in a dash exactly when the input ends in a character outside `[a-z0-9]` |
| Utils.Words | lib/utils.ts:5-6 | the maximal runs of `[a-z0-9]`, in order: each word is non-empty and made of letters and digits, and a string that starts with one has at least one word |
| Utils.CollapseRunsKeepsWords | lib/utils.ts:5 | collapsing keeps the words: each separator run becomes one dash between the same words |
| Utils.TrimKeepsWords | lib/utils.ts:4 | trimming keeps the words |
| Utils.TrimDashesKeepsWords | lib/utils.ts:6 | dropping the edge dashes keeps the words |
| Utils.SlugShapedJoinsWords | lib/utils.ts:6 | a string in slug shape is its words joined with single dashes |
| Utils.TrimKeepsAlnums | lib/utils.ts:4 | trimming removes no letter or digit |
| Utils.TrimDashesShape | lib/utils.ts:6 | dropping the edge dashes of a dash-separated string leaves the slug shape and the same letters and digits |
| Utils.TrimDashes | lib/utils.ts:6 | `replace(/(^-|-$)+/g, "")`: one leading and one trailing dash removed, the rest kept; specified by `TrimDashesShape` and `TrimDashesKeepsWords` |
| Utils.Slugify | lib/utils.ts:1-7 | `slugify`: lower, trim, collapse separator runs, drop the edge dashes; specified by `SlugifyJoinsWords`, `SlugifyShape`, `SlugifyKeepsAlnums`, `SlugifyEmptyIffNoAlnum` and `SlugifyIdempotent` |
| Utils.SlugifyShape | lib/utils.ts:1-7 | every `slugify` result uses only `[a-z0-9-]`, has no doubled dash and no dash at either end |
| Utils.SlugifyKeepsAlnums | lib/utils.ts:3-6 | the letters and digits of the lowercased input appear in the result in order, and nothing else but single separating dashes |
| Utils.CollapseRunsFixed | lib/utils.ts:5 | collapsing a string that is already dash-separated changes nothing |
| Utils.SlugShapedFixed | lib/utils.ts:1-7 | `slugify` returns a string already in slug shape unchanged |
| Utils.SlugifyIdempotent | lib/utils.ts:1-7 | `slugify(slugify(x)) == slugify(x)` |
| Utils.SlugifyEmptyIffNoAlnum | lib/utils.ts:5-6 | the result is empty exactly when the lowercased input has no ASCII letter or digit |
| Utils.SlugifyJoinsWords | lib/utils.ts:1-7 | `slugify(x)` is the maximal `[a-z0-9]` runs of the lowercased `x`, joined with single dashes; this says where every dash goes |
| SearchParams.Get | components/Tabs.tsx:20 | `get` is absent exactly when no pair has the name, and otherwise is the value of the first pair with that name |
| SearchParams.Delete | components/AdminProjectTable.tsx:75 | `delete` removes every pair with the name and keeps every other pair and every other name's value |
| SearchParams.Set | components/AdminProjectTable.tsx:73 | `set` makes `get` return the value, leaves one pair with the name, equals the old list outside that name, and keeps every other name's value |
| SearchParams.DeleteIdempotent | components/Tabs.tsx:26 | deleting twice is deleting once |
| TabBar.ActiveValue | components/Tabs.tsx:20 | the parameter's value when present, otherwise the first tab's value, and undefined only with no parameter and no tabs |
| TabBar.Select | components/Tabs.tsx:22-33 | the active value read from the new parameters is the chosen value (round trip); the first tab's value removes the parameter and any other value sets it; all other parameters are carried over |
| TabBar.IsActive | components/Tabs.tsx:38 | a tab is marked selected when its value is the active value; specified by `AtMostOneActive` and `SelectMarksOnlyChosen` |
| TabBar.AtMostOneActive | components/Tabs.tsx:38 | with distinct tab values at most one tab is marked selected |
| TabBar.SelectMarksOnlyChosen | components/Tabs.tsx:38-44 | after choosing a tab, it and no other tab is marked selected |
| BasicAuth.Unauthorized | middleware.ts:3-10 | a 401 whose `WWW-Authenticate` header starts with `Basic ` |
| BasicAuth.IsGated | middleware.ts:15 | the path test: starts with `/admin` or `/api/admin`; `Middleware` lets every other path through |
| BasicAuth.CredentialToken | middleware.ts:32 | `header.split(" ")[1]`: the text after `Basic ` up to the next space, as `SplitAfterPrefix` states |
| BasicAuth.UserOf | middleware.ts:34 | the first `:`-piece of the decoded text; specified by `UserPasswordSplit` |
| BasicAuth.PasswordOf | middleware.ts:34-35 | the remaining `:`-pieces joined with `:`; specified by `UserPasswordSplit` and `CredentialsMatchIff` |
| BasicAuth.Middleware | middleware.ts:12-42 | paths outside `/admin` and `/api/admin` pass whatever the header; a missing or empty `ADMIN_USER`/`ADMIN_PASS` or a header not starting with `Basic ` gets the 401; every response it produces is that 401; it throws exactly when the request is gated, both credentials are set, the header is `Basic ` and `atob` rejects the token |
| BasicAuth.UserPasswordSplit | middleware.ts:34-35 | the user is the text before the first colon; the password is everything after it, further colons included, and is empty when there is no colon |
| BasicAuth.CredentialsMatchIff | middleware.ts:34-37 | with a non-empty password, the decoded user and password equal the configured pair exactly when the decoded text is `user:pass` and the user has no colon |
| BasicAuth.AuthorizedIff | middleware.ts:12-42 | a gated request passes exactly when both credentials are set, the header is `Basic `, and the token decodes to `ADMIN_USER:ADMIN_PASS` with a colon-free `ADMIN_USER` |
| BasicAuth.NoColonNeverAuthorized | middleware.ts:19-41 | decoded credentials without a colon are never let through |
| ProjectSchema.LengthIssues | app/api/admin/projects/route.ts:6-12 | no issue exactly when min ≤ UTF-16 length ≤ max; each issue is on the field and has a non-empty message |
| ProjectSchema.TitleIssues | app/api/admin/projects/route.ts:6 | no issue exactly when `title` is a string of 3 to 150 code units; each issue is on `title` |
| ProjectSchema.SlugIssues | app/api/admin/projects/route.ts:7-11 | no issue exactly when `slug` is a string of 3 to 150 code units that fully matches `^[a-z0-9-]+$` |
| ProjectSchema.ShortDescIssues | app/api/admin/projects/route.ts:12 | no issue exactly when `shortDesc` is a string of 10 to 500 code units, untrimmed |
| ProjectSchema.UrlIssues | app/api/admin/projects/route.ts:13-30 | no issue exactly when the URL is absent, or a string whose trim is empty or starts case-insensitively with `http://` or `https://` |
| ProjectSchema.BodyIssues | app/api/admin/projects/route.ts:31-35 | no issue exactly when `body` is absent or a string of at most 5000 code units |
| ProjectSchema.ElementIssues | app/api/admin/projects/route.ts:36 | no issue exactly when every array element is a string; each issue is on `tagIds` |
| ProjectSchema.TagIdsIssues | app/api/admin/projects/route.ts:36 | no issue exactly when `tagIds` is absent or an array of strings |
| ProjectSchema.Issues | app/api/admin/projects/route.ts:5-37 | the issues zod reports, field by field in schema order, or one type issue for a non-object; specified by `IssuesEmptyIff`, `IssuePaths` and `Parse` |
| ProjectSchema.IssuesEmptyIff | app/api/admin/projects/route.ts:5-37 | the payload has no issue exactly when it is an object whose seven fields all pass, and every issue message is non-empty |
| ProjectSchema.Strings | app/api/admin/projects/route.ts:36 | the parsed tag ids are the array's strings, position by position |
| ProjectSchema.StringsRoundTrip | app/api/admin/projects/route.ts:36 | an array of strings read out and written back is the same array |
| ProjectSchema.UrlOutput | app/api/admin/projects/route.ts:13-30 | an accepted URL is output trimmed, "" when absent, and empty or with an http(s) scheme |
| ProjectSchema.CoverUrlOutput | app/api/admin/projects/route.ts:13-21 | the parsed `coverUrl` is the trimmed value sent, or "" |
| ProjectSchema.ProjectUrlOutput | app/api/admin/projects/route.ts:22-30 | the parsed `projectUrl` is the trimmed value sent, or "" |
| ProjectSchema.RequiredFields | app/api/admin/projects/route.ts:6-12 | `title`, `slug` and `shortDesc` are output exactly as sent, within their bounds |
| ProjectSchema.RequiredOutput | app/api/admin/projects/route.ts:6-12 | an accepted payload's required fields are output verbatim |
| ProjectSchema.BodyField | app/api/admin/projects/route.ts:31-35 | an accepted body is output verbatim, "" when absent |
| ProjectSchema.BodyOutput | app/api/admin/projects/route.ts:31-35 | the parsed `body` is the string sent, untrimmed, or "" |
| ProjectSchema.TagIdsField | app/api/admin/projects/route.ts:36 | accepted tag ids are output in order, `[]` when absent |
| ProjectSchema.TagIdsOutput | app/api/admin/projects/route.ts:36 | the parsed `tagIds` are the strings sent, or `[]` |
| ProjectSchema.Output | app/api/admin/projects/route.ts:5-37 | the parsed data of an accepted object; specified by `OutputParsedFrom` and the field output rows above |
| ProjectSchema.OutputParsedFrom | app/api/admin/projects/route.ts:5-37 | a payload that passes every field check parses to the record described field by field above |
| ProjectSchema.Parse | app/api/admin/projects/route.ts:5-37 | `safeParse` succeeds exactly when the payload is an object whose fields all pass; a failure carries at least one issue and only non-empty messages; a non-object payload's issues have no field path |
| ProjectSchema.FailingFields | app/api/admin/projects/route.ts:5-37 | the failing fields are schema fields, and there are none exactly when every field passes |
| ProjectSchema.IssuePaths | app/api/admin/projects/route.ts:5-37 | the issues of an object name exactly its failing fields; those of a non-object name none |
| ProjectRoute.RecordIssue | app/api/admin/projects/route.ts:51-54 | one step of the loop: record an issue's message under its field unless that field already holds a non-empty one; specified by `FirstIssueWins` |
| ProjectRoute.FieldErrors | app/api/admin/projects/route.ts:49-55 | the dictionary after every issue, in order; `CollectFieldErrors` computes it and `FirstIssueWins` characterises it |
| ProjectRoute.CollectFieldErrors | app/api/admin/projects/route.ts:49-55 | the loop builds the same dictionary as folding the issues in order, recording an issue's message unless its field already has a non-empty one |
| ProjectRoute.FirstIssueWins | app/api/admin/projects/route.ts:49-55 | with non-empty messages, the dictionary has one entry per field that some issue names, and that entry is the first such issue's message |
| ProjectRoute.ValidationErrorFields | app/api/admin/projects/route.ts:47-62 | the `fields` of a 400 are exactly the failing fields of an object payload, and empty for any other payload |
| ProjectRoute.NewRecord | app/api/admin/projects/route.ts:82-93 | the row `create` writes from the parsed data; specified by `RecordWellFormed`, `RecordFromPayload` and the stored-field rows below |
| ProjectRoute.RecordWellFormed | app/api/admin/projects/route.ts:81-93 | every row built from a parsed payload has bounded title, slug and description, a pattern-matching slug, trimmed http(s) URLs or `null`, and a non-blank body or `null` |
| ProjectRoute.RecordFromPayload | app/api/admin/projects/route.ts:83-92 | the row holds the scalar fields as sent, each URL trimmed or `null` when empty, the body verbatim or `null` when its trim is empty, no tags when `tagIds` is absent, and otherwise the set of string ids sent |
| ProjectRoute.StoredTagsFromPayload | app/api/admin/projects/route.ts:90-92 | the tags connected are the string ids of the `tagIds` array sent, and none when it is absent |
| ProjectRoute.StoredUrlFromPayload | app/api/admin/projects/route.ts:87-88 | a stored URL is the trimmed value sent, `null` when that is empty |
| ProjectRoute.StoredBodyFromPayload | app/api/admin/projects/route.ts:89 | the stored body is `null` exactly when the body sent trims to nothing, and otherwise the body as sent |
| ProjectRoute.ProjectStore.constructor | prisma/seed.ts:6-18 | the model's stand-in for the database: an empty project table over the seeded tags, which satisfies the store invariant |
| ProjectRoute.ProjectStore.Create | app/api/admin/projects/route.ts:39-104 | malformed JSON gives 400 and leaves the store alone; a failed parse gives 400 with the field map; a slug in use gives 409; a database failure or an unknown tag gives 500; otherwise 201 with the new row and its tags, and the store gains exactly that row. The store invariant (slugs unique, rows well formed, ids distinct, tags known) is kept |
| ProjectRoute.ProjectStore.Store | app/api/admin/projects/route.ts:65-103 | the part after validation: the slug check before any write, and the same outcomes and invariant as `Create` |
| ProjectRoute.StoreTwiceConflicts | app/api/admin/projects/route.ts:67-79 | writing the same input twice gives 409 the second time and leaves the first row in place |
| AdminForm.TagIds | components/AdminProjectForm.tsx:56 | the tag ids of the project, position by position |
| AdminForm.InitialState | components/AdminProjectForm.tsx:33-58 | all-empty without a project; otherwise the project's fields with `null` as "" and the ids of exactly its tags |
| AdminForm.ChangeKeepsAutoSlug | components/AdminProjectForm.tsx:63-75 | every change keeps the rule that, until the slug is edited by hand, a typed title decides the slug |
| AdminForm.ApplyChange | components/AdminProjectForm.tsx:63-71 | the changed field takes the value and every other field keeps its value, except that a title change with an automatic slug sets the slug to `slugify(title)`; the tag ids are untouched |
| AdminForm.Without | components/AdminProjectForm.tsx:82 | the filter leaves no occurrence of the id and keeps every other id as many times as it occurred |
| AdminForm.WithoutConcat | components/AdminProjectForm.tsx:82 | the filter works element by element: filtering a concatenation is concatenating the filtered parts, and a single id is kept exactly when it is not the removed one; so the kept ids stay in their order |
| AdminForm.Toggle | components/AdminProjectForm.tsx:77-85 | membership of the id flips, every other id keeps its membership; an absent id is appended after the unchanged list, and a present one is removed by the filter `Without`, which keeps the other ids in order |
| AdminForm.ToggleKeepsDistinct | components/AdminProjectForm.tsx:79-82 | toggling keeps a duplicate-free tag list duplicate-free |
| AdminForm.ToggleTwice | components/AdminProjectForm.tsx:79-82 | toggling twice restores membership; an absent id leaves the list exactly as it was, a present one ends up once at the end |
| AdminForm.SubmitPayload | components/AdminProjectForm.tsx:92-97 | title, slug and tag ids are sent as they are; short description, cover URL and body are sent trimmed, and an already trimmed state is sent unchanged |
| AdminForm.SubmitPayloadIdempotent | components/AdminProjectForm.tsx:92-97 | normalising a normalised payload changes nothing |
| AdminForm.PayloadJson | components/AdminProjectForm.tsx:92-97 | the JSON body the form sends; specified by `SubmittedUrlsNormalised` |
| AdminForm.SubmittedUrlsNormalised | components/AdminProjectForm.tsx:92-97 | the server's trim of the submitted cover URL is a no-op, and it receives no `projectUrl` |
| AdminForm.SubmitRequest | components/AdminProjectForm.tsx:99-111 | create mode sends POST to the collection and edit mode PUT to the project's item; POST goes with the collection URL and PUT with an item URL; edit mode without a project sends nothing |
| AdminForm.AutoSlugMatchesPattern | components/AdminProjectForm.tsx:68 | a non-empty derived slug matches the server's `^[a-z0-9-]+$` |
| AdminForm.AdminProjectForm.constructor | components/AdminProjectForm.tsx:44-59 | the form starts with the initial state, no errors, not submitting and an automatic slug |
| AdminForm.AdminProjectForm.HandleChange | components/AdminProjectForm.tsx:63-75 | the state becomes the updater's result; `slugEdited` latches once the slug is edited; while it is unset a typed title keeps the slug equal to `slugify(title)` |
| AdminForm.AdminProjectForm.ToggleTag | components/AdminProjectForm.tsx:77-85 | only the tag ids change, as `Toggle` says |
| AdminForm.AdminProjectForm.BeginSubmit | components/AdminProjectForm.tsx:87-104 | errors cleared, the request of `SubmitRequest` returned, and the form busy exactly when a request goes out |
| AdminForm.AdminProjectForm.CompleteSubmit | components/AdminProjectForm.tsx:113-135 | a rejection carrying `fields` shows them as the errors; the form is no longer busy in every case |
| AdminTable.KeepMatching | components/AdminProjectTable.tsx:33-34 | a project is kept exactly when its lowercased title contains the lowercased query, as many times as it occurs, and the result is a subsequence of the list |
| AdminTable.FilterProjects | components/AdminProjectTable.tsx:29-35 | an empty query returns the list unchanged; otherwise exactly the projects whose lowercased title contains the lowercased query, in their order |
| AdminTable.KeepMatchingAll | components/AdminProjectTable.tsx:34 | a list whose every title matches is kept whole |
| AdminTable.FilterIdempotent | components/AdminProjectTable.tsx:29-35 | filtering the filtered list with the same query changes nothing |
| AdminTable.FindById | components/AdminProjectTable.tsx:38 | `find` is absent exactly when no project has the id, and otherwise is the first project with it |
| AdminTable.HandleDelete | components/AdminProjectTable.tsx:37-52 | an unknown id does nothing; a declined confirmation does nothing; only a confirmed known id sends `DELETE` for that id |
| AdminTable.TitleMatches | components/AdminProjectTable.tsx:34 | `project.title.toLowerCase().includes(lower)`; specified through `KeepMatching` and `FilterProjects` |
| AdminTable.ReloadedQuery | app/admin/projects/page.tsx:14 | the query the page reads back after a reload: `q` trimmed, "" when absent; `HandleQueryChange` states the round trip |
| AdminTable.AdminProjectTable.constructor | components/AdminProjectTable.tsx:24-25 | the table starts with its projects, the initial query and the current search parameters |
| AdminTable.AdminProjectTable.HandleQueryChange | components/AdminProjectTable.tsx:69-79 | the query follows the box; a non-empty value sets `q`, an empty one deletes it; every other parameter is unchanged; a reload reads back the trimmed value (app/admin/projects/page.tsx:14); the rows shown are the filtered list for the new value |

## Left out

- The update (PUT) and delete handlers of app/api/admin/projects/[id]/route.ts are not part of this model. The delete button is modelled only up to the request it sends.
- The `findUnique`-then-`create` race: the model checks and writes in sequence, with no concurrent writer.
- Database internals. The store is a map from slug to row. A generated id, the creation time and a thrown exception are inputs to `Create`. `connect` failing on an unknown tag id is the 500 branch. An exception from `findUnique` is not modelled.
- `atob` is a function parameter, and `None` stands for the exception it throws. The model records that exception as an outcome (`Throws`) and does not turn it into a response.
- `fetch`, router navigation, `window.confirm`, `window.history.replaceState`, `encodeURIComponent` and URL serialisation. `confirm` is a function parameter. Endpoints carry the raw id. The server's reply to a save is an input.
- `console.warn`/`console.error`, toasts (`dispatchToast`) and `formatDate`.
- Full Unicode case mapping: `toLowerCase` is modelled on ASCII only. `trim` uses the full ECMAScript white-space and line-terminator set.
- zod and `URLSearchParams` beyond the behaviour used here. Issue paths are kept to their first element. Type errors are messages only. Unknown payload keys are ignored, as zod strips them.
- ProjectRoute.FirstIssueWins: proved for issue lists whose messages are all non-empty, which every schema issue list is. The loop's `!fieldErrors[path]` test would also overwrite an empty message, and `fieldErrors` inherited prototype keys are not modelled.
- AdminForm.AdminProjectForm.BeginSubmit and CompleteSubmit: the `await` between them is two method calls. The busy flag between the calls is modelled; React's batching of state updates is not.
- AdminForm.AdminProjectForm.HandleChange: `handleChange` is modelled for the five text fields. It is never attached to `tagIds`.

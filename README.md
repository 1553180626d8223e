# Rojgar job board: client-side logic in Dafny

Rojgar is a browser single-page job board. This project models the small part of the client that is
logic rather than markup:

- **Job feed** (`src/pages/view/Jobs.tsx`). A case-insensitive search keeps the jobs whose title or
  description contains the search term. Each card shows at most three category chips and a "+N more"
  counter. The list shows a loading placeholder, a "no match" notice or the cards, under a "{n} job(s)
  available" label. The placeholder is chosen by the list being empty, so a request that succeeds
  with no jobs keeps showing "Loading amazing opportunities..." for good. The post-job dialog turns its comma-separated category box into a list, posts the
  job, reloads the list and resets the form.
- **Signup** (`src/pages/auth/Signup.tsx`). An ordered chain of early-return checks: first name, last
  name and username of at least 3 characters, an email matching `^[^\s@]+@[^\s@]+\.[^\s@]+$`, and a
  password of at least 6 characters. The first check that fails decides the message. When all pass,
  the skills box is parsed like the categories and the request is sent. The account kind is SEEKER or
  POSTER.
- **Mock-question chat** (`src/pages/view/Queries.tsx`). A message log that only grows. Blank input is
  ignored. The request key is the input trimmed and lower-cased. The reply is the numbered
  "Technical i:" and "Behavioral i:" lines joined by a blank line, or "Failed to fetch questions.".
- **Session** (`src/pages/auth/Login.tsx`, `src/pages/view/Landing.tsx`, the logout handlers). Login
  stores `Authorization = "Bearer " + token` and `UserType` in localStorage. Logout removes both. The
  landing page takes the second space-separated piece of `Authorization` and goes to `/user/home`
  when it is non-empty, to `/login` otherwise.

Modules, one per file:

- `Wrappers`: `Option`.
- `Seqs`: `Array.prototype.filter`.
- `Text`: ASCII `trim`, `toLowerCase`, `includes`, `split` on one character, `join`, the comma-list
  parser, and decimal printing.
- `Session`: localStorage as a class over a `map<string, string>`, the logout handler, and the routes.
- `Jobs`, `Signup`, `Queries`, `Login`, `Landing`: one per page.

State the source updates in place is a class with methods: each page's React state, and the storage.
The filter, the parser, the email test, the validation order, the reply text and the token extraction
are functions, and lemmas about them carry the properties. Network answers are parameters of the
handlers: an `Option` or an outcome datatype that says whether the request succeeded and what came
back. Each handler's state updates are modelled as taking effect in program order.

## Model

| member | source | states |
|---|---|---|
| `Seqs.Filter` | src/pages/view/Jobs.tsx:48-51 | `Array.prototype.filter`, recursive from the front; its properties are in `Seqs.FilterPositions`, `Seqs.FilterMembers`, `Seqs.FilterKeepsAll` and `Seqs.FilterIdempotent` |
| `Seqs.FilterPositions` | src/pages/view/Jobs.tsx:48-51 | `filter` returns the input read at strictly increasing positions, and a position is chosen exactly when its element passes the test |
| `Seqs.FilterMembers` | src/pages/view/Jobs.tsx:48-51 | an element is in the filtered list iff it is in the input and passes |
| `Seqs.FilterKeepsAll` | src/pages/view/Jobs.tsx:48-51 | when every element passes, `filter` returns the input unchanged |
| `Seqs.FilterIdempotent` | src/pages/view/Jobs.tsx:48-51 | filtering twice with the same test equals filtering once |
| `Text.Lower` | src/pages/view/Jobs.tsx:49 | `toLowerCase`, character by character; its properties are in `Text.LowerProperties` |
| `Text.LowerChar` | src/pages/view/Jobs.tsx:49 | lower-casing a character maps A-Z to a-z (code point + 32), keeps every other character, and never yields a capital |
| `Text.LowerProperties` | src/pages/view/Queries.tsx:46 | `toLowerCase` keeps the length, leaves no ASCII capital and is idempotent |
| `Text.Trim` | src/pages/view/Jobs.tsx:80 | `trim`, dropping white space from both ends; characterised by `Text.TrimSpec` |
| `Text.TrimSpec` | src/pages/view/Jobs.tsx:80 | `trim` returns a slice s[i..j]: everything before i and from j on is white space, and the slice neither starts nor ends with white space |
| `Text.TrimIdempotent` | src/pages/view/Jobs.tsx:80 | trimming twice equals trimming once |
| `Text.TrimOfTrimmed` | src/pages/view/Jobs.tsx:80 | a string with no white space at either end is its own trim |
| `Text.TrimEmptyIffBlank` | src/pages/view/Queries.tsx:39 | `trim` gives "" exactly when the string is empty or all white space |
| `Text.TrimChars` | src/pages/view/Jobs.tsx:80 | every character of the trimmed string occurs in the original |
| `Text.Includes` | src/pages/view/Jobs.tsx:49-50 | `includes`; characterised by `Text.IncludesIff` |
| `Text.IncludesIff` | src/pages/view/Jobs.tsx:49-50 | `includes` holds exactly when the needle occurs at some position of the haystack |
| `Text.IncludesEmpty` | src/pages/view/Jobs.tsx:49-50 | every string includes "" |
| `Text.Split` | src/pages/view/Jobs.tsx:79 | `split` on one character always returns at least one piece |
| `Text.Join` | src/pages/view/Queries.tsx:49-52 | `join` with a separator between neighbours; tied to `Split` by `Text.SplitJoin` and `Text.JoinSplit` |
| `Text.SplitJoin` | src/pages/view/Jobs.tsx:79 | joining the pieces of a split with the separator gives the string back |
| `Text.SplitPieces` | src/pages/view/Jobs.tsx:79 | no piece of a split contains the separator |
| `Text.SplitWithoutSeparator` | src/pages/view/Jobs.tsx:79 | a string without the separator splits into itself alone |
| `Text.SplitConcat` | src/pages/view/Landing.tsx:71 | a separator between a and b splits a and b independently |
| `Text.SplitCount` | src/pages/view/Jobs.tsx:79 | a split has one piece more than there are separators |
| `Text.JoinSplit` | src/pages/view/Jobs.tsx:79 | splitting a join of separator-free pieces gives those pieces back |
| `Text.JoinAppend` | src/pages/view/Queries.tsx:49-52 | joining two non-empty lists puts exactly one separator between their joins |
| `Text.ParseCommaList` | src/pages/view/Jobs.tsx:78-81 | `split(",").map(trim).filter(length > 0)`, used for categories and for skills (Signup.tsx:68-71); its properties are in the four `Text.ParseCommaList…` lemmas |
| `Text.ParseCommaListClean` | src/pages/view/Jobs.tsx:78-81 | every parsed category is non-empty, is its own trim and contains no comma |
| `Text.ParseCommaListSingle` | src/pages/view/Jobs.tsx:78-81 | a non-blank string without commas parses to exactly one entry, its trim |
| `Text.ParseCommaListBlank` | src/pages/view/Jobs.tsx:78-81 | a blank string parses to the empty list |
| `Text.ParseCommaListJoin` | src/pages/view/Jobs.tsx:78-81 | non-empty, trimmed, comma-free entries joined with "," parse back to themselves, including the empty list |
| `Text.DigitChar` | src/pages/view/Queries.tsx:50 | a digit below 10 prints as a character '0'..'9' |
| `Text.NatToString` | src/pages/view/Queries.tsx:50 | `${n}` for a count prints at least one character |
| `Text.NatToStringRoundTrip` | src/pages/view/Queries.tsx:50 | `${n}` prints only digits, and reading them back gives n |
| `Text.NatToStringInjective` | src/pages/view/Jobs.tsx:478 | different counts print differently |
| `Session.Lookup` | src/pages/view/Landing.tsx:71 | `getItem` on a map of entries: the value, or None for a missing key; `Landing.LogoutThenLanding` and `Landing.LoginThenLanding` read the storage through it |
| `Session.LocalStorage.GetItem` | src/pages/view/Landing.tsx:71 | `localStorage.getItem`, the same lookup on the storage object |
| `Session.LocalStorage.constructor` | src/pages/auth/Login.tsx:36-37 | a storage starts with the given entries |
| `Session.LocalStorage.SetItem` | src/pages/auth/Login.tsx:36-37 | `setItem` maps the key to the value and changes no other key |
| `Session.LocalStorage.RemoveItem` | src/pages/view/Jobs.tsx:66-67 | `removeItem` deletes the key and changes no other key; removing an absent key does nothing |
| `Session.ClearSession` | src/pages/view/Jobs.tsx:65-69 | after logout neither `Authorization` nor `UserType` is stored, and every other key keeps its value |
| `Session.Logout` | src/pages/view/Jobs.tsx:65-69 | the logout handler of the feed (and the identical one at Queries.tsx:32-36) leaves the storage equal to ClearSession of the old storage and routes to "/" |
| `Login.StoreSession` | src/pages/auth/Login.tsx:33-37 | after login `Authorization` is "Bearer " + the response's token and `UserType` is the response's type; every other key keeps its value |
| `Login.LoginPage.constructor` | src/pages/auth/Login.tsx:8-10 | the page starts with empty email and password and `loading` false |
| `Login.LoginPage.EditCredentials` | src/pages/auth/Login.tsx:249-266 | the input handlers set email and password and nothing else |
| `Login.LoginPage.Submit` | src/pages/auth/Login.tsx:21-47 | on success the storage becomes StoreSession of the old storage and the route is `/user/home`; on a failed request the storage is unchanged and there is no navigation; `loading` is false on both paths |
| `Landing.ExtractToken` | src/pages/view/Landing.tsx:71 | `getItem("Authorization")?.split(" ")[1]`; its behaviour is stated by `Landing.TruthyTokenIff`, `Landing.BearerRoundTrip` and `Landing.SecondPieceDecides` |
| `Landing.MoveToLogin` | src/pages/view/Landing.tsx:70-78 | the route is always `/user/home` or `/login`; with no stored `Authorization` it is `/login`; with a stored value it is `/user/home` iff the value's first space is followed by a non-space character |
| `Landing.LandingRoute` | src/pages/view/Landing.tsx:70-76 | `moveToLogin` reading the storage object; used by `Landing.LoginAndReturn` and `Landing.LogoutAndReturn` |
| `Landing.MissingCredentialRoutesToLogin` | src/pages/view/Landing.tsx:71-73 | a missing `Authorization` key yields no token and routes to `/login` |
| `Landing.NoSpaceRoutesToLogin` | src/pages/view/Landing.tsx:71-73 | a value without a space (e.g. "Bearer") has no second piece and routes to `/login` |
| `Landing.EmptyTokenRoutesToLogin` | src/pages/view/Landing.tsx:71-73 | a value like "Bearer " yields the empty token and routes to `/login` |
| `Landing.SecondPieceDecides` | src/pages/view/Landing.tsx:71 | for "X a b" the token is a, whatever b is; a non-empty a routes home |
| `Landing.BearerRoundTrip` | src/pages/view/Landing.tsx:71-75 | "Bearer " + t with t space-free yields exactly t; a non-empty t routes to `/user/home` |
| `Landing.TruthyTokenIff` | src/pages/view/Landing.tsx:71-72 | `split(" ")[1]` of the stored value is defined and non-empty iff a value is stored and its first space is followed by a non-space character |
| `Landing.FirstOccurrence` | src/pages/view/Landing.tsx:71 | a character that occurs has a first position |
| `Landing.SplitHeadEmpty` | src/pages/view/Landing.tsx:71 | the first piece of a split is empty iff the string is empty or starts with the separator |
| `Landing.LoginThenLanding` | src/pages/auth/Login.tsx:36 | after storing a login with a non-empty, space-free token, the landing page extracts that same token and routes to `/user/home` |
| `Landing.LogoutThenLanding` | src/pages/view/Jobs.tsx:65-69 | after logout the landing page routes to `/login`, whatever else is stored |
| `Landing.LoginAndReturn` | src/pages/view/Landing.tsx:70-76 | on a real storage object, a successful login with a non-empty, space-free token followed by the landing button leads to `/user/home` |
| `Landing.LogoutAndReturn` | src/pages/view/Landing.tsx:70-76 | on a real storage object, logout followed by the landing button leads to `/login` |
| `Jobs.Matches` | src/pages/view/Jobs.tsx:49-50 | the search test; characterised by `Jobs.MatchesIff` |
| `Jobs.FilterJobs` | src/pages/view/Jobs.tsx:48-51 | `filteredJobs`; characterised by `Jobs.FilterSelectsMatches` and `Jobs.FilterMembersMatch` |
| `Jobs.MatchesIff` | src/pages/view/Jobs.tsx:48-51 | a job matches iff the lower-cased term occurs at some position of the lower-cased title or the lower-cased description |
| `Jobs.MatchesIgnoresTermCase` | src/pages/view/Jobs.tsx:49-50 | lower-casing the term first does not change which jobs match |
| `Jobs.FilterSelectsMatches` | src/pages/view/Jobs.tsx:48-51 | `filteredJobs` is an order-preserving subsequence of `jobs` that holds exactly the positions whose job matches |
| `Jobs.FilterMembersMatch` | src/pages/view/Jobs.tsx:48-51 | a job is shown iff it is loaded and matches the search term |
| `Jobs.FilterEmptyTerm` | src/pages/view/Jobs.tsx:48-51 | an empty search term keeps every job, in order |
| `Jobs.FilterJobsIdempotent` | src/pages/view/Jobs.tsx:48-51 | searching the filtered list again with the same term changes nothing |
| `Jobs.Feed` | src/pages/view/Jobs.tsx:487-503 | the three-way choice of the list area; its cases are stated by `Jobs.FeedNoMatchesIff` and `Jobs.FeedEmptyTermShowsAll` |
| `Jobs.FeedNoMatchesIff` | src/pages/view/Jobs.tsx:487-501 | "No jobs found" is shown iff the job list is non-empty and no job matches; an empty list, loaded or not, shows the loading placeholder |
| `Jobs.FeedEmptyTermShowsAll` | src/pages/view/Jobs.tsx:487-503 | with an empty search box and a non-empty list, every job gets a card |
| `Jobs.CountLabel` | src/pages/view/Jobs.tsx:478 | the count label; its wording is stated by `Jobs.CountLabelNoun` |
| `Jobs.CountLabelNoun` | src/pages/view/Jobs.tsx:478 | the label says "1 job available" iff exactly one job is shown, otherwise "{n} jobs available", and different counts give different labels |
| `Jobs.CategoryChips` | src/pages/view/Jobs.tsx:524-538 | the chip row appears iff the job has a non-empty category list; it shows a prefix of at most 3 chips; chips plus the "+N more" count equal the number of categories; with more than 3 categories the row is exactly the first 3 and "+(n-3) more"; with at most 3 it is all of them and no counter |
| `Jobs.Payload` | src/pages/view/Jobs.tsx:78-91 | the posted body carries the form's title, description and user id, and a category list with no empty, untrimmed or comma-holding entry |
| `Jobs.JobsPage.constructor` | src/pages/view/Jobs.tsx:18-32 | the page starts with no jobs, an empty search, the dialog closed, `loading` false and all six form fields "" |
| `Jobs.JobsPage.LoadJobs` | src/pages/view/Jobs.tsx:34-38 | the initial fetch replaces the list on success and keeps it on failure; nothing else changes |
| `Jobs.JobsPage.SetSearchTerm` | src/pages/view/Jobs.tsx:440 | typing sets the search term and nothing else |
| `Jobs.JobsPage.SetDialogOpen` | src/pages/view/Jobs.tsx:248 | the "Post a Job" button opens the dialog and the close and cancel buttons (lines 267, 375) close it; nothing else changes |
| `Jobs.JobsPage.EditForm` | src/pages/view/Jobs.tsx:286-366 | the six input handlers set the form fields and nothing else |
| `Jobs.JobsPage.PostJob` | src/pages/view/Jobs.tsx:72-115 | the body sent is Payload of the form; on success the list is the reloaded one, all six fields are "" and the dialog is closed; on failure the list, form and dialog are unchanged; `loading` ends false either way |
| `Signup.UserTypeName` | src/pages/auth/Signup.tsx:13 | the account kind sent is "SEEKER" or "POSTER", and "SEEKER" exactly for Seeker |
| `Signup.IsValidEmail` | src/pages/auth/Signup.tsx:54-55 | the email test; shown equal to the regular expression by `Signup.EmailPatternIff` |
| `Signup.EmailPatternIff` | src/pages/auth/Signup.tsx:54-55 | the pattern `^[^\s@]+@[^\s@]+\.[^\s@]+$` matches exactly the strings with no white space, one '@' with something before it, and after it a '.' with a character on each side |
| `Signup.ValidEmailHasOneAt` | src/pages/auth/Signup.tsx:54-55 | a valid email has exactly one '@' |
| `Signup.Passes` | src/pages/auth/Signup.tsx:36-65 | the condition each early return tests, negated |
| `Signup.FirstFailure` | src/pages/auth/Signup.tsx:36-65 | the first failing check of a list; stated by `Signup.FirstFailureNone`, `Signup.FirstFailureIsFirst` and `Signup.FirstFailingIsReported` |
| `Signup.Validate` | src/pages/auth/Signup.tsx:36-65 | the message of the first failing check in source order; stated by `Signup.ValidateChain` and `Signup.ValidateAcceptsIff` |
| `Signup.FirstFailureNone` | src/pages/auth/Signup.tsx:36-65 | no check is reported iff every check in the list passes |
| `Signup.FirstFailureIsFirst` | src/pages/auth/Signup.tsx:36-65 | the reported check fails and every check before it in the order passes |
| `Signup.FirstFailingIsReported` | src/pages/auth/Signup.tsx:36-65 | when a check fails and all before it pass, that check is the one reported |
| `Signup.ValidateChain` | src/pages/auth/Signup.tsx:36-65 | the message is the first failing check's, in the order first name, last name, username, email, password |
| `Signup.ValidateAcceptsIff` | src/pages/auth/Signup.tsx:36-65 | the form passes iff both names and the username have length at least 3, the email is valid and the password has length at least 6 |
| `Signup.LengthBoundaries` | src/pages/auth/Signup.tsx:36-65 | a first name of length 2 is rejected and one of 3 passes its check; with the other checks passing, a password of 6 is accepted and one of 5 rejected |
| `Signup.SignupPage.Request` | src/pages/auth/Signup.tsx:68-83 | the skills sent contain no empty entry and every entry is trimmed |
| `Signup.SignupPage.constructor` | src/pages/auth/Signup.tsx:8-16 | the page starts with empty fields, SEEKER selected and `loading` false |
| `Signup.SignupPage.SelectUserType` | src/pages/auth/Signup.tsx:387-398 | the two buttons set the account kind, which can only be SEEKER or POSTER |
| `Signup.SignupPage.EditForm` | src/pages/auth/Signup.tsx:294-422 | the input handlers set the form fields |
| `Signup.SignupPage.Submit` | src/pages/auth/Signup.tsx:32-94 | a failing check gives exactly Validate's message and sends nothing; otherwise the request is sent, and success routes to `/login`; `loading` ends false on every path |
| `Queries.RequestKey` | src/pages/view/Queries.tsx:46 | `techStack.trim().toLowerCase()`; its properties are in `Queries.RequestKeyNormalised` |
| `Queries.RequestKeyNormalised` | src/pages/view/Queries.tsx:46 | the key lower(trim(techStack)) is trimmed, has no capitals, is unchanged by normalising again, and is empty iff the input is blank |
| `Queries.LowerKeepsWhitespace` | src/pages/view/Queries.tsx:46 | lower-casing keeps white space where it was |
| `Queries.Numbered` | src/pages/view/Queries.tsx:50-51 | the `map((q, i) => ...)` numbering; stated by `Queries.NumberedAt` |
| `Queries.ReplyLines` | src/pages/view/Queries.tsx:49-52 | the technical lines followed by the behavioral lines; stated by `Queries.ReplyLinesShape` |
| `Queries.FormatReply` | src/pages/view/Queries.tsx:49-52 | the lines joined with "\n\n"; stated by `Queries.FormatReplyBlocks`, `Queries.FormatReplyEmpty` and `Queries.FormatReplyStart` |
| `Queries.ReplyText` | src/pages/view/Queries.tsx:54-56 | the AI message: the formatted reply, or "Failed to fetch questions." when the request failed; used in the contract of `Queries.QueryPage.Submit` |
| `Queries.NumberedAt` | src/pages/view/Queries.tsx:50-51 | the i-th numbered line is "{kind} {first + i}: {question i}" |
| `Queries.ReplyLinesShape` | src/pages/view/Queries.tsx:49-52 | the reply has one line per question, technical first, each numbered from 1 within its group |
| `Queries.FormatReplyBlocks` | src/pages/view/Queries.tsx:49-52 | with questions of both kinds, the reply is the technical block, "\n\n", then the behavioral block |
| `Queries.FormatReplyEmpty` | src/pages/view/Queries.tsx:49-52 | no questions give the empty reply, which differs from the failure notice |
| `Queries.FormatReplyStart` | src/pages/view/Queries.tsx:50 | a reply with a technical question starts with "Technical 1: " and that question |
| `Queries.QueryPage.constructor` | src/pages/view/Queries.tsx:14-16 | the page starts with an empty input, no messages and `loading` false |
| `Queries.QueryPage.SetTechStack` | src/pages/view/Queries.tsx:114 | typing sets the input |
| `Queries.QueryPage.Submit` | src/pages/view/Queries.tsx:38-61 | the log only grows; blank input changes nothing and sends nothing; otherwise the key is lower(trim(input)), exactly two messages are appended (the user's untrimmed text, then the reply or "Failed to fetch questions."), the input becomes "" and `loading` false |

## Left out

- Rendering: JSX, CSS keyframes and class strings, the `setTimeout` animation triggers, the
  `IntersectionObserver` of the landing page, the password-visibility toggles and the choice of
  call-to-action section by the stored `UserType`. These are presentation only.
- HTTP: axios calls are not modelled. Each handler receives the outcome as a parameter. The base URL
  from the environment, URL encoding of the question key and the backend are left out.
- Jobs.JobsPage.PostJob: sends `createdAt` and `closedAt` as typed, because the conversion with
  `new Date(...).toISOString()` depends on the time zone and the date library. An invalid date makes
  that conversion throw; the model folds this into the `PostFailed` outcome. `PostFailed` also covers
  a post that succeeded followed by a reload that failed; the model does not record that the job then
  exists on the server.
- Displayed dates (`toLocaleDateString`) are locale-dependent and left out.
- Text.Trim, Text.Lower and Signup.IsValidEmail: white space and case are ASCII only. Unicode white
  space (such as U+00A0) and non-ASCII capitals, which JavaScript also handles, are not modelled.
- Login.LoginResponse: the token and the type are strings. A response without them, which JavaScript
  would store as "undefined", is not modelled.
- Toasts, alerts, console output and the message of a failed signup request are left out. Navigation
  is recorded only as the returned route.
- The plain navigation handlers of the feed and the chat (to home, profile, query page) are left out:
  each is one `navigate` call.
- React's asynchronous re-rendering and batching of state updates are left out.
- Signup.Passes: lengths are counted in Unicode characters, while JavaScript's `length` counts UTF-16
  code units. A character outside the Basic Multilingual Plane counts 2 in the source and 1 in the
  model, so a password such as three emoji (length 6 in JavaScript) is accepted by the source and
  rejected by the model. Signup.ValidateAcceptsIff and Signup.LengthBoundaries inherit this.
- Queries.QueryPage.Submit: each submission runs to completion before the next one starts. The Send
  button and the Enter key stay enabled while a request is pending, so in the source two quick
  submissions append both user messages first and then the replies in the order they arrive. The
  model does not capture this interleaving.
- `src/pages/view/Profile.tsx` (a fixed fetch and its display; its logout is the same as the feed's)
  and `src/App.tsx` (the route table) are not part of this model.

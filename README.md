# YouTube summarizer client: a Dafny model of its request and history workflow

This project models the logic of a React client that summarizes YouTube videos.

- **Submit.** The user pastes a video URL and picks one of three summary formats. The page
  checks the URL: first it must be non-empty, then it must match a fixed pattern. It then asks
  an oEmbed proxy for the video's title and thumbnail. After that it asks a generative model
  for the summary.
- **Result.** On success the page shows a summary record and adds it to a history kept in
  local storage. The history is sorted newest first.
- **History page.** It searches the history case-insensitively and deletes entries after a
  confirmation dialog.
- **Session.** A mock login keeps the current user in storage.
- **Export.** The result card exports a summary to TXT or PDF under a name derived from the
  video title.

Network replies and storage contents are abstract datatypes. Each piece of state the
components update in place is a class with `modifies` clauses:

- the history hook is `SummaryHistory.HistoryStore`;
- the submit page is `SummaryPage.Page`;
- the history page is `HistoryPage.Page`;
- the session is `Auth.AuthProvider`.

The history hook's in-place sort works on an `array`. It is proved equal to a functional
stable sort, and that sort is proved sorted and a permutation.

Module by source file:

- `Types` models types.ts: the formats, their labels, and the records.
- `Js` models the JavaScript built-ins the code relies on:
  - `toLowerCase`, `includes`, `trim` and `\s`, all restricted to ASCII;
  - number rendering;
  - `Error.prototype.toString`.
- `SummaryHistory` models hooks/useSummaryHistory.tsx.
- `YoutubeService` models services/youtubeService.ts.
- `GeminiService` models services/geminiService.ts.
- `SummaryPage` models pages/SummaryPage.tsx.
- `HistoryPage` models pages/HistoryPage.tsx.
- `Auth` models hooks/useAuth.tsx.
- `SummaryResultCard` models what components/SummaryResultCard.tsx exports.

Ids are the instants of the ISO-8601 timestamps the code uses, as integers in milliseconds.
ISO-8601 strings of one format order like the instants they name. `createdAt` is an opaque
display string.

Some behaviour of the code, as modelled:

- The generator's catch block tests the API-key marker first. After that it re-throws verbatim
  every error that has a non-empty message, not only the component's own. Only a message-less
  error becomes the "temporarily unavailable" text. `GeminiService.GeneratedCases` shows that
  the component's own texts never contain the marker, so they reach the page unchanged.
- The URL pattern's `youtu\.?be` also matches the bare host `youtube`, so `youtube/abc123` is
  accepted. See `SummaryPage.BareYoutubeHostAccepted`.
- If the history write to storage throws, the in-memory history is still updated and sorted.
  This is because the array is sorted in place before the write.
- Each page holds its own instance of the history hook, each with its own state.

## Model

| member | source | states |
|---|---|---|
| Types.AllFormats | types.ts:8-12 | the format picker lists exactly three formats, each once |
| Types.Label | types.ts:9-11 | the enum value of each format; `LabelRoundTrip` and `LabelInjective` state that it identifies the format |
| Types.FormatOfLabel | types.ts:9-11 | a label maps back to the format carrying it, and an unknown text to none |
| Types.LabelRoundTrip | types.ts:9-11 | each format is recovered from its label |
| Types.LabelInjective | types.ts:9-11 | distinct formats have distinct labels |
| Js.Lower | pages/HistoryPage.tsx:17-18 | lower-casing keeps the length and maps every character by ASCII lower-casing |
| Js.Contains | pages/HistoryPage.tsx:17-18 | `includes`: true exactly when the text occurs at some offset (`ContainsIffOccurs`); the empty text occurs everywhere |
| Js.ContainsAt | pages/HistoryPage.tsx:17-18 | an occurrence at any offset makes `includes` true |
| Js.ContainsOnlyIfOccurs | pages/HistoryPage.tsx:17-18 | `includes` is true only when the text occurs at some offset |
| Js.ContainsIffOccurs | pages/HistoryPage.tsx:17-18 | `includes` holds if and only if the text occurs at some offset |
| Js.ErrorToString | services/geminiService.ts:61 | `Error.prototype.toString`: the name, ": " and the message, or only the non-empty one of the two |
| Js.LowerIdempotent | pages/HistoryPage.tsx:17-18 | lower-casing twice is lower-casing once; no upper-case letter remains |
| Js.Trim | services/geminiService.ts:50 | the result is the input with its leading and trailing whitespace removed: a window of it with only whitespace before and after; it is empty exactly when the input is all whitespace, and otherwise its ends are not whitespace |
| Js.NatToStringRoundTrip | services/youtubeService.ts:24 | the rendered status reads back as the status |
| SummaryHistory.PersistLoadRoundTrip | hooks/useSummaryHistory.tsx:13-24 | loading what was persisted gives the same history |
| SummaryHistory.LoadHistory | hooks/useSummaryHistory.tsx:9-19 | the mount effect: the stored list, or empty for a missing, blank or unparsable slot; `PersistLoadRoundTrip` reads back what was written |
| SummaryHistory.Insert | hooks/useSummaryHistory.tsx:23 | one step of the stable descending sort; `InsertAt`, `InsertSorted` and `InsertPermutation` state where the entry goes |
| SummaryHistory.SortNewestFirst | hooks/useSummaryHistory.tsx:23 | `sort` with the newest-first comparator; `SortNewestFirstCorrect`, `SortOfSorted` and `NewestGoesFirst` state its properties |
| SummaryHistory.RemoveId | hooks/useSummaryHistory.tsx:42 | `filter(item => item.id !== id)`; `RemoveIdCounts`, `RemoveIdSorted` and `RemoveAbsentId` state its properties |
| SummaryHistory.Added | hooks/useSummaryHistory.tsx:31-37 | the history after `addSummary`: prepend, then sort; `AddedProperties` and `AddedNewestAtFront` state its properties |
| SummaryHistory.Deleted | hooks/useSummaryHistory.tsx:40-46 | the history after `deleteSummary`: filter, then sort; `DeletedProperties`, `DeleteIdempotent` and `DeleteAbsentIsNoOp` state its properties |
| SummaryHistory.SortNewestFirstCorrect | hooks/useSummaryHistory.tsx:23 | the sort yields a newest-first permutation of its input |
| SummaryHistory.InsertPermutation | hooks/useSummaryHistory.tsx:23 | one insertion step adds exactly the inserted entry |
| SummaryHistory.InsertSorted | hooks/useSummaryHistory.tsx:23 | inserting into a newest-first history keeps it newest first |
| SummaryHistory.SortOfSorted | hooks/useSummaryHistory.tsx:23 | sorting an already newest-first history leaves it as it is |
| SummaryHistory.NewestGoesFirst | hooks/useSummaryHistory.tsx:23 | a first entry not older than the rest stays first (stability) |
| SummaryHistory.InsertAt | hooks/useSummaryHistory.tsx:23 | insertion places the entry before the first entry that is not newer |
| SummaryHistory.InsertStep | hooks/useSummaryHistory.tsx:23 | the in-place step sinks one entry into the sorted suffix, leaving the prefix alone |
| SummaryHistory.SortInPlace | hooks/useSummaryHistory.tsx:23 | the in-place sort leaves the array equal to the stable newest-first sort of its old contents |
| SummaryHistory.RemoveIdCounts | hooks/useSummaryHistory.tsx:42 | the filter drops every entry with the id and keeps every other entry's count |
| SummaryHistory.RemoveIdSorted | hooks/useSummaryHistory.tsx:42 | filtering keeps a history newest first |
| SummaryHistory.RemoveAbsentId | hooks/useSummaryHistory.tsx:42 | filtering an absent id changes nothing |
| SummaryHistory.AddedProperties | hooks/useSummaryHistory.tsx:31-37 | after an add: one more entry, the new one present, the others kept, newest first |
| SummaryHistory.AddedNewestAtFront | hooks/useSummaryHistory.tsx:23-33 | an entry not older than any other ends at index 0 |
| SummaryHistory.DeletedProperties | hooks/useSummaryHistory.tsx:40-46 | after a delete: no entry with the id, every other entry's count kept, newest first |
| SummaryHistory.DeleteIdempotent | hooks/useSummaryHistory.tsx:42-44 | deleting an id twice gives the history deleting it once gives |
| SummaryHistory.DeleteAbsentIsNoOp | hooks/useSummaryHistory.tsx:42-44 | deleting an absent id from a sorted history changes nothing |
| SummaryHistory.HistoryStore.constructor | hooks/useSummaryHistory.tsx:7-19 | the history is the parsed stored list, or empty when nothing is stored or parsing fails |
| SummaryHistory.HistoryStore.SaveHistory | hooks/useSummaryHistory.tsx:21-29 | the array is sorted in place, and storage is written only if the write succeeds |
| SummaryHistory.HistoryStore.Add | hooks/useSummaryHistory.tsx:31-37 | the history becomes the sorted history with the entry prepended, whether or not the write succeeds |
| SummaryHistory.HistoryStore.Delete | hooks/useSummaryHistory.tsx:40-46 | the history becomes the sorted filtered history, whether or not the write succeeds |
| YoutubeService.StatusMessageCarriesStatus | services/youtubeService.ts:22-25 | the non-OK message holds the status in decimal, and it reads back as the status |
| YoutubeService.IsOk | services/youtubeService.ts:22 | `response.ok`: a status from 200 to 299 |
| YoutubeService.StatusMessage | services/youtubeService.ts:24 | the non-OK message with the status in decimal; `StatusMessageCarriesStatus` reads the status back |
| YoutubeService.Truthy | services/youtubeService.ts:29 | JavaScript truthiness of the payload's `error` field |
| YoutubeService.Attempt | services/youtubeService.ts:19-41 | the try block: status, error field and completeness checked in that order; the case lemmas below state each outcome |
| YoutubeService.EncodeUriComponent | services/youtubeService.ts:17 | the encoding holds only unreserved characters and '%', and leaves unreserved text unchanged |
| YoutubeService.LookupUrl | services/youtubeService.ts:17 | the lookup URL is the noembed endpoint followed by the encoded video URL |
| YoutubeService.Rethrow | services/youtubeService.ts:47-53 | a message is passed on verbatim; only an empty one becomes the generic text |
| YoutubeService.GetVideoDetails | services/youtubeService.ts:15-55 | success carries non-empty title and thumbnail; every failure message is non-empty |
| YoutubeService.StatusCheckedFirst | services/youtubeService.ts:22-25 | a non-OK status fails with its status message, whatever the body |
| YoutubeService.ErrorFieldCheckedSecond | services/youtubeService.ts:29-32 | an OK reply with a truthy error field is "not found", whatever else it holds |
| YoutubeService.CompletenessCheckedThird | services/youtubeService.ts:34-39 | otherwise a missing or empty title or thumbnail is "incomplete" |
| YoutubeService.SuccessExactlyWhenComplete | services/youtubeService.ts:22-41 | success happens exactly for an OK, parsed, error-free, complete payload, and returns its fields as received |
| YoutubeService.RuntimeErrorsPassThrough | services/youtubeService.ts:42-53 | a network or JSON error goes through the catch block's re-throw |
| GeminiService.InstructionsDistinct | services/geminiService.ts:13-23 | each format has its own instruction |
| GeminiService.Instruction | services/geminiService.ts:13-23 | the switch's instruction per format; `InstructionsDistinct` states that they differ |
| GeminiService.Prompt | services/geminiService.ts:25-34 | the prompt template; `PromptMentions` states where the URL, label and instruction sit in it |
| GeminiService.Blocked | services/geminiService.ts:46 | no candidate list, an empty one, or a first candidate stopped for SAFETY |
| GeminiService.Attempt | services/geminiService.ts:36-56 | the try block: blocked, undefined text, blank text, then the trimmed text; `GeneratedCases` states each outcome |
| GeminiService.Generated | services/geminiService.ts:6-75 | `generateSummary` as its caller sees it: the try block followed by the catch block; `GeneratedCases` and `CredentialsCheckFirst` state its outcomes |
| GeminiService.PromptMentions | services/geminiService.ts:25-34 | the prompt contains the URL, the label and the instruction, in that order, at known offsets |
| GeminiService.Normalize | services/geminiService.ts:57-74 | the marker test comes first, then a non-empty message verbatim, then the generic text |
| GeminiService.BlockedLacksMarker | services/geminiService.ts:47 | the blocked error's text does not contain the API-key marker |
| GeminiService.EmptyLacksMarker | services/geminiService.ts:53 | the "unable to generate" error's text does not contain the marker |
| GeminiService.TrimErrorLacksMarker | services/geminiService.ts:50 | the TypeError of an undefined text does not contain the marker |
| GeminiService.GeneratedCases | services/geminiService.ts:36-74 | blocked, undefined text, blank text and success in check order; success is trimmed and non-empty; every failure message is non-empty |
| GeminiService.CredentialsCheckFirst | services/geminiService.ts:61-65 | an error whose text names an invalid API key becomes "not configured", whatever its message |
| GeminiService.GenerateSummary | services/geminiService.ts:6-75 | the switch picks the format's instruction, the prompt is built from it, and the outcome is the checked, normalised reply |
| SummaryPage.PatternCorrect | pages/SummaryPage.tsx:24 | the matcher accepts exactly an optional scheme, optional "www.", one of three hosts, '/', and at least one character that is not a line terminator |
| SummaryPage.MatchesYoutubePattern | pages/SummaryPage.tsx:24 | the URL regex as a matcher with its alternatives in order; `PatternCorrect` states the language it accepts |
| SummaryPage.ShapeAccepted | pages/SummaryPage.tsx:24 | every combination of scheme, "www." choice and host, followed by '/' and a path, is accepted |
| SummaryPage.AcceptedHasPath | pages/SummaryPage.tsx:24 | an accepted URL has a '/' before its last character and does not end in a line break |
| SummaryPage.RejectedWithoutPath | pages/SummaryPage.tsx:24 | a URL without such a '/' or ending in a line break is rejected |
| SummaryPage.WatchUrlAccepted | pages/SummaryPage.tsx:24 | `https://www.youtube.com/watch?v=abc123` is accepted |
| SummaryPage.ShortLinkAccepted | pages/SummaryPage.tsx:24 | `youtu.be/abc123` is accepted |
| SummaryPage.BareYoutubeHostAccepted | pages/SummaryPage.tsx:24 | `youtube/abc123` is accepted |
| SummaryPage.BareHostRejected | pages/SummaryPage.tsx:24 | `https://youtube.com/` is rejected |
| SummaryPage.ErrorText | pages/SummaryPage.tsx:51 | the shown error is the thrown message, or the fallback when it is empty |
| SummaryPage.SubmitGuards | pages/SummaryPage.tsx:19-28 | an empty URL, then a URL outside the pattern, is rejected with its own message before any service is asked |
| SummaryPage.Submit | pages/SummaryPage.tsx:17-55 | one submission's outcome: the two guards, then the lookup and the generation; `SubmitGuards`, `SummarizedExactly` and `FailuresReportTheirCause` state its outcomes |
| SummaryPage.Requested | pages/SummaryPage.tsx:34-51 | the part after the guards: the lookup, then the generation, each failure with its message |
| SummaryPage.Display | pages/SummaryPage.tsx:129-137 | the loading indicator first, then a non-empty error, then the result; `ViewAfterSubmit` applies it to each outcome |
| SummaryPage.SummarizedExactly | pages/SummaryPage.tsx:34-48 | a record is made exactly when the pattern, the lookup and the generation all succeed; it carries the URL, format, id, lookup fields and generated text |
| SummaryPage.FailuresReportTheirCause | pages/SummaryPage.tsx:35-51 | a failed lookup stops before generation with its message; a failed generation reports its own; no message is empty |
| SummaryPage.Page.constructor | pages/SummaryPage.tsx:10-15 | the page starts with an empty URL, Key Topics, not loading, no error and no result |
| SummaryPage.Page.SetUrl | pages/SummaryPage.tsx:79 | the URL field's handler sets the URL only |
| SummaryPage.Page.SetFormat | pages/SummaryPage.tsx:100 | a format button's handler sets the format only |
| SummaryPage.Page.HandleSubmit | pages/SummaryPage.tsx:17-55 | rejections send nothing and change only the error; otherwise the lookup is sent first and generation only after it succeeds; loading ends cleared; the same record is shown and added to history |
| SummaryPage.ViewAfterSubmit | pages/SummaryPage.tsx:129-137 | after a submission the page shows the record or the failure's message; a rejection's message is hidden only by a loading indicator |
| HistoryPage.FilteredHistory | pages/HistoryPage.tsx:15-20 | the list is no longer than history and every kept entry matches the term |
| HistoryPage.MatchesTerm | pages/HistoryPage.tsx:16-19 | the lower-cased title or summary contains the lower-cased term; `CaseInsensitive` states that case does not matter |
| HistoryPage.FilteredExactly | pages/HistoryPage.tsx:15-20 | an entry is listed exactly when it is in history and its lower-cased title or summary contains the lower-cased term, as often as history holds it |
| HistoryPage.FilteredInOrder | pages/HistoryPage.tsx:16 | the list is a subsequence of history |
| HistoryPage.EmptyTermKeepsAll | pages/HistoryPage.tsx:16-19 | an empty term lists the whole history |
| HistoryPage.CaseInsensitive | pages/HistoryPage.tsx:17-18 | terms equal up to case list the same entries |
| HistoryPage.Page.constructor | pages/HistoryPage.tsx:9-13 | the page starts with no search, no selection, the modal closed and no pending id |
| HistoryPage.Page.SetSearchTerm | pages/HistoryPage.tsx:73 | the search box's handler sets the term only |
| HistoryPage.Page.Select | pages/HistoryPage.tsx:81 | clicking an entry selects it |
| HistoryPage.Page.BackToHistory | pages/HistoryPage.tsx:42 | the back button clears the selection |
| HistoryPage.Page.OpenDeleteModal | pages/HistoryPage.tsx:22-25 | the id becomes pending and the modal opens |
| HistoryPage.Page.CloseModal | pages/HistoryPage.tsx:56 | closing the modal keeps the pending id |
| HistoryPage.Page.ConfirmDelete | pages/HistoryPage.tsx:27-36 | a pending id is deleted, and the selection is cleared only if it has that id; the modal ends closed and the pending id cleared in every case |
| Auth.NameOf | hooks/useAuth.tsx:24 | the name is the part of the email before the first '@', or the whole email without one |
| Auth.NameIgnoresDomain | hooks/useAuth.tsx:24 | whatever follows the first '@' does not affect the name |
| Auth.MockUser | hooks/useAuth.tsx:21-25 | the user has id 'user-123', the email given, and the derived name |
| Auth.SessionLaws | hooks/useAuth.tsx:14-33 | login makes the user current and a reload reads it back; login twice changes nothing; logout leaves no user, now or after a reload |
| Auth.InitialUser | hooks/useAuth.tsx:14-18 | the stored user when the slot holds one, else null |
| Auth.AfterLogin | hooks/useAuth.tsx:20-28 | the session after `login`: the mock user stored and current; `SessionLaws` states its laws |
| Auth.AfterLogout | hooks/useAuth.tsx:30-33 | the session after `logout`: nothing stored, no user; `SessionLaws` states its laws |
| Auth.AuthProvider.constructor | hooks/useAuth.tsx:14-18 | the first user is the stored one if present, else none |
| Auth.AuthProvider.Login | hooks/useAuth.tsx:20-28 | the mock user is stored and made current |
| Auth.AuthProvider.Logout | hooks/useAuth.tsx:30-33 | the stored user is removed and none is current |
| SummaryResultCard.ExportStem | components/SummaryResultCard.tsx:24 | the stem has no whitespace, is no longer than the title, and equals a title that has none |
| SummaryResultCard.StemJoin | components/SummaryResultCard.tsx:24 | a whitespace run becomes exactly one '_', and each side is rewritten on its own |
| SummaryResultCard.StemIdempotent | components/SummaryResultCard.tsx:24 | rewriting a stem again changes nothing |
| SummaryResultCard.FilenamesShareStem | components/SummaryResultCard.tsx:24-41 | both file names are the stem followed by their own suffix, with no whitespace |
| SummaryResultCard.TxtFilename | components/SummaryResultCard.tsx:24 | the TXT download name: the stem and "_summary.txt"; `FilenamesShareStem` states its shape |
| SummaryResultCard.PdfFilename | components/SummaryResultCard.tsx:41 | the PDF file name: the stem and "_summary.pdf"; `FilenamesShareStem` states its shape |
| SummaryResultCard.ExportContents | components/SummaryResultCard.tsx:14-40 | TXT content and copied text are the summary; the PDF has title, then "Source: " and the URL, then the summary, each further down |
| SummaryResultCard.PdfTexts | components/SummaryResultCard.tsx:31-40 | the three `doc.text` calls with their positions and font sizes; `ExportContents` states their order |
| SummaryResultCard.TxtContent | components/SummaryResultCard.tsx:21 | the TXT blob holds the summary |
| SummaryResultCard.CopiedText | components/SummaryResultCard.tsx:15 | the clipboard receives the summary |

## Left out

- `fetch`, the generative-model client and its configuration, `localStorage`, and
  `JSON.parse`/`stringify` are not modelled. Their outcomes are parameters of the model:
  - the fetch reply;
  - the model reply;
  - the storage slot;
  - a flag saying whether the write succeeds.
- `Date`, `toISOString` and `toLocaleDateString` are not modelled. The model is given the
  instant and the display date.
- `console` output is left out. It has no effect on state.
- Lowercasing and whitespace are restricted to ASCII:
  - Unicode case folding is not modelled.
  - The non-ASCII whitespace of JavaScript's `\s` and `trim` is not modelled.
- Ids are integers. An empty-string id, which `confirmDelete`'s truthiness test would skip,
  has no counterpart.
- A `title` or `thumbnail_url` that is not a string is not modelled. The payload carries them
  as optional strings.
- Values that are thrown but are not `Error` objects are left out. They would reach the catch
  blocks without `message` or `toString`.
- GeminiService.TrimOfUndefined uses V8's wording for the TypeError of `undefined.trim()`.
  Other engines word it differently.
- Auth.InitialUser: it requires a stored user that parses, as the constructor that calls it
  does. A corrupt slot, on which `JSON.parse` throws, has no result.
- Auth.AuthProvider.constructor: it requires a stored user that parses. The code does not
  handle a corrupt one: `JSON.parse` throws during the first render.
- A stored user is not parsed. `UserSlot.Stored` holds the user directly.
- Auth.AuthProvider.Login: a `setItem` call that throws is not modelled. Storage writes for
  the session always succeed.
- `useAuth`'s context lookup and its "must be used within an AuthProvider" error are left out.
  They are framework plumbing.
- HistoryPage.FilteredHistory: `useMemo` caching is left out. The list is recomputed from
  the current state.
- SummaryPage.Page.HandleSubmit is modelled as running to completion, so three things are
  left out:
  - the loading view shown while the calls are pending;
  - overlapping submissions;
  - React re-running state updaters.
- SummaryResultCard leaves out the layout and delivery of the exports:
  - jsPDF's `splitTextToSize` line breaking, fonts and colours (the body is one text at its
    position);
  - Blob and object URLs;
  - DOM link clicks;
  - the clipboard write;
  - the `setTimeout`-driven `copied` flag.
- JSX rendering, routing, the header, footer, modal key handling, login page and feedback page
  are view code and are not modelled.
- SummaryHistory.HistorySlot has no case for stored text that parses as JSON but is not a list
  of records, such as `null` or `{}`. The hook stores such a value as the history without an
  error, and the history page's `history.filter` then throws during render. The model cannot
  express that crash: its slot is missing, blank, unparsable, or a list.
- SummaryPage.SubmitGuards: the URL field is `<input type="url" required>`, so the browser
  refuses an empty value or one without a scheme before the submit handler runs, and it strips
  line breaks from the value. The empty-URL branch, the scheme-less inputs of
  `ShortLinkAccepted` and `BareYoutubeHostAccepted`, and the line-break case of
  `RejectedWithoutPath` therefore cannot be reached from the form; the model states what the
  handler itself does with them.
- SummaryHistory.NewestGoesFirst: stability is stated only for the entry at index 0. It is
  not stated for equal ids further down the history.

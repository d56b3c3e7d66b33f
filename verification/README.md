# Feedback guestbook of the portfolio site, in Dafny

This project models the feedback guestbook of the `my-portfolio` site, plus the blog feed and the contact modal next to it.

**The server side.** Visitors leave short notes under a page's `slug`. The notes are listed newest first, at most 150 per thread. Two servers answer `/api/feedback`:

- the Vercel function `api/feedback.ts`;
- the Express app `server/index.ts`.

Both validate a POST body against the same zod schema and drop honeypot (`hp`) hits without saying so. A valid POST appends one MongoDB document. A GET lists a thread without email addresses.

**The browser side.**

- `src/lib/api.ts` builds the URLs and reads the replies.
- `FeedbackPage` and `FeedbackForm` drive the submit cycle.
- `FeedbackList` renders a list and asks for more through an intersection observer.
- `fetchVelogPosts` reads the blog feed through a one-hour cache in local storage.
- `BlogSection` shows that feed as cards.
- `EmailModal` sends a contact mail in three phases.

**How the model is built.**

- Every component state is an immutable record. Every event handler is a pure function of the state and of what its awaited calls settled with.
- The database is a sequence of documents.
- The following are parameters of the operations: the clock, the driver's new id, a thrown database error, the local calendar fields of `new Date(s)`, and the email syntax check.
- The Dafny modules follow the program: one per source file or component. The shared pieces are modules of their own:
  - `JsString`: `trim`, UTF-16 `length`, `String(n)`, `padStart`, `join`.
  - `IsoTime`: `toISOString`, following ECMA-262 section 21.4.1.
  - `ObjectIds`: hex ids.
  - `Json`: parsed bodies, truthiness, property reads.
  - `FeedbackStore`: the collection and its listing.
  - `FeedbackSchema`: the zod schemas.
  - `Wire`: replies and their JSON form.

**Facts about the code worth knowing before the table.**

- The listing never carries `email` (`FeedbackStore.DtoHidesEmail`, `VercelFeedback.ListingHidesEmail`).
- Both servers send errors as `{error}`, while the client reads `message` (see Findings).
- Only the Vercel function answers 405 to other methods. The Express app has no route for them (`ServerDivergence.OtherMethodDiverges`). Express's own 404 answers them, except OPTIONS, which the `cors()` middleware ends with 204 before any route.
- The Express app checks the honeypot before validation, and counts a whitespace-only one as a hit (`ServerDivergence.WhitespaceHoneypotDiverges`, `ServerDivergence.InvalidBodyWithHoneypotDiverges`).
- Lengths are counted in UTF-16 code units, as zod counts them, so the model measures with `JsString.Utf16Length`.
- A comment in `EmailModal.tsx` says the success animation shows for 3.5 s. The default is 1900 ms (`EmailModal.DefaultSuccessDurationMs`).

## Model

| member | source | states |
|---|---|---|
| VercelFeedback.GetFirst | my-portfolio/api/feedback.ts:39-42 | the first of repeated query values, the single value itself, or "" when the parameter is absent or an empty array |
| VercelFeedback.Failure | my-portfolio/api/feedback.ts:109-113 | the catch clause answers 500 with the error's message, or "Internal Server Error" for a thrown non-Error, and leaves the store alone |
| VercelFeedback.List | my-portfolio/api/feedback.ts:62-85 | a GET never changes the store |
| VercelFeedback.Create | my-portfolio/api/feedback.ts:87-105 | a POST changes the store exactly when it answers 201 |
| VercelFeedback.Handle | my-portfolio/api/feedback.ts:58-114 | every answer is 200, 201, 400, 405 or 500; the Allow header is sent exactly with 405; only a 201 changes the store, by appending one document with the new id and the current time |
| VercelFeedback.MissingMethodIsGet | my-portfolio/api/feedback.ts:60 | a request without a method is handled exactly like a GET |
| VercelFeedback.EmptySlugRejected | my-portfolio/api/feedback.ts:63-64 | a GET with a missing, empty or empty-first slug gets 400 "Missing slug" and nothing else happens |
| VercelFeedback.GetListsThread | my-portfolio/api/feedback.ts:70-84 | a GET with a slug answers 200 with at most 150 entries of that thread, drawn from the store, newest first; an entry of the thread is left out only when the list is full, and then it is no newer than the last one listed |
| VercelFeedback.GetOutcome | my-portfolio/api/feedback.ts:62-85 | the whole outcome of a GET with a slug when the database answers |
| VercelFeedback.GetReplies | my-portfolio/api/feedback.ts:76-84 | the reply body of such a GET is the wire form of the listing |
| VercelFeedback.PostStores | my-portfolio/api/feedback.ts:91-102 | a valid POST without a honeypot hit stores exactly the document built from the parsed submission |
| VercelFeedback.PostThenGet | my-portfolio/api/feedback.ts:87-104 | after a valid POST, a GET of its thread lists the store that grew by the new document |
| VercelFeedback.ListingHidesEmail | my-portfolio/api/feedback.ts:76-82 | no listed entry has an `email` property, whatever is stored |
| VercelFeedback.InvalidPostRejected | my-portfolio/api/feedback.ts:88-89 | a body breaking the schema gets 400 "Invalid input" and nothing is written, even if the database would fail |
| VercelFeedback.HoneypotIgnored | my-portfolio/api/feedback.ts:92 | a valid body whose `hp` holds more than spaces gets 200 `{ok: true}` and nothing is written |
| VercelFeedback.ValidPostAppends | my-portfolio/api/feedback.ts:91-104 | any other valid POST answers 201 and appends one document: the slug, the trimmed message, the trimmed name or "익명", the email unless empty, now, and the new id |
| VercelFeedback.OtherMethodRefused | my-portfolio/api/feedback.ts:107-108 | any other method gets 405 with `Allow: GET, POST` and no write |
| VercelFeedback.FaultAnswers500 | my-portfolio/api/feedback.ts:109-113 | a request that reaches a failing database gets 500 with the error's message and nothing is written |
| ExpressFeedback.SlugParam | my-portfolio/server/index.ts:35 | the slug is the string itself, "" when absent, and the comma-joined values for a repeated parameter |
| ExpressFeedback.ErrorText | my-portfolio/server/index.ts:59-61 | the error text is never empty: the message when it is non-empty, otherwise "Internal Server Error" |
| ExpressFeedback.List | my-portfolio/server/index.ts:33-63 | the GET route never changes the store |
| ExpressFeedback.Create | my-portfolio/server/index.ts:66-94 | the POST route changes the store exactly when it answers 201 |
| ExpressFeedback.Handle | my-portfolio/server/index.ts:33-94 | a method matches a route exactly when it is GET, HEAD or POST; no answer has an Allow header; only a 201 changes the store, by one appended document |
| ExpressFeedback.EmptySlugRejected | my-portfolio/server/index.ts:35-36 | a GET whose slug prints as "" gets 400 "Missing slug" |
| ExpressFeedback.GetListsThread | my-portfolio/server/index.ts:42-56 | a GET lists the thread named by the printed slug: at most 150 entries of that thread, from the store, newest first |
| ExpressFeedback.HoneypotFirst | my-portfolio/server/index.ts:68 | a truthy `hp` gets 200 `{ok: true}` before validation, whitespace included, and nothing is written |
| ExpressFeedback.InvalidPostRejected | my-portfolio/server/index.ts:70-73 | without a truthy honeypot, a body failing the schema gets 400 "Invalid input" and no write |
| ExpressFeedback.ValidPostAppends | my-portfolio/server/index.ts:74-87 | a valid body without a truthy honeypot appends the normalised document and answers 201 |
| ExpressFeedback.FaultAnswers500 | my-portfolio/server/index.ts:88-93 | a request that reaches a failing database gets 500 with the non-empty error text and no write |
| ServerDivergence.SlugReadingsAgreeIffNotRepeated | my-portfolio/server/index.ts:35 | the two servers read the same slug if and only if the parameter is not repeated |
| ServerDivergence.GetAgrees | my-portfolio/api/feedback.ts:62-85 | on a GET whose slug is not repeated, both servers give the same outcome whenever any error carries a non-empty message |
| ServerDivergence.PostWithoutHoneypotAgrees | my-portfolio/api/feedback.ts:87-105 | on a POST body without `hp`, both servers give the same outcome |
| ServerDivergence.WhitespaceHoneypotDiverges | my-portfolio/server/index.ts:68 | a whitespace-only honeypot on a valid body: Vercel stores it and answers 201, Express answers 200 and stores nothing |
| ServerDivergence.InvalidBodyWithHoneypotDiverges | my-portfolio/api/feedback.ts:88-92 | a truthy honeypot on an invalid body: Vercel answers 400, Express 200, neither writes |
| ServerDivergence.OtherMethodDiverges | my-portfolio/api/feedback.ts:107-108 | any method other than GET, HEAD or POST: Vercel answers 405 with Allow, Express has no route |
| ServerDivergence.EmptyErrorMessageDiverges | my-portfolio/server/index.ts:59-61 | an error with an empty message: Vercel reports "", Express the fallback text |
| ServerDivergence.NewEntryHeadsWireListing | my-portfolio/api/feedback.ts:70-82 | after appending a document newer than the rest of its thread, the wire listing of that thread starts with its entry |
| ServerDivergence.CreateThenList | my-portfolio/api/feedback.ts:87-104 | POST then GET on the Vercel function: when the clock has passed every earlier entry of the thread, the new entry heads the listing with its slug, trimmed message and id |
| FeedbackStore.BySlug | my-portfolio/api/feedback.ts:71 | the thread holds exactly the stored documents with that slug, with their multiplicities |
| FeedbackStore.SortNewestFirst | my-portfolio/api/feedback.ts:72 | the result is a permutation of the input with non-increasing `createdAt` |
| FeedbackStore.InsertNewestFirst | my-portfolio/api/feedback.ts:72 | inserting into a newest-first sequence keeps it newest first and adds exactly that document |
| FeedbackStore.SortedThread | my-portfolio/api/feedback.ts:71-72 | the thread sorted newest first holds exactly the thread's documents, drawn from the store |
| FeedbackStore.Listing | my-portfolio/api/feedback.ts:70-74 | at most 150 documents, all of the thread, newest first, a sub-multiset of the store; an omitted document of the thread means the list is full and that document is no newer than the last listed |
| FeedbackStore.ListingDrawnFromStore | my-portfolio/api/feedback.ts:70-74 | each listed document is stored and belongs to the thread |
| FeedbackStore.PrefixOfNewestFirst | my-portfolio/api/feedback.ts:73 | the first k of a newest-first sequence are newest first, and whatever they leave out is no newer than the last one kept |
| FeedbackStore.ToDto | my-portfolio/api/feedback.ts:76-82 | the wire id reads back as the ObjectId, the wire time reads back as the UTC fields of the creation time, and slug, name and message are carried over |
| FeedbackStore.ToDtos | my-portfolio/api/feedback.ts:76-82 | one wire entry per document, in order |
| FeedbackStore.DtoHidesEmail | my-portfolio/api/feedback.ts:76-82 | documents differing only in email have the same wire form |
| FeedbackStore.Append | my-portfolio/api/feedback.ts:96-102 | an insert keeps every earlier document in place and adds the new one at the end |
| FeedbackStore.AppendKeepsIdsUnique | my-portfolio/api/feedback.ts:96-102 | appending under a fresh id keeps ids pairwise distinct |
| FeedbackStore.ListedAfterAppend | my-portfolio/api/feedback.ts:70-74 | after an append, whatever the thread lists is the new document or one already stored in the thread |
| FeedbackStore.NewestListed | my-portfolio/api/feedback.ts:70-74 | a document newer than the rest of its thread is listed after it is appended |
| FeedbackStore.NewestHeadsListing | my-portfolio/api/feedback.ts:70-74 | such a document heads the next listing of its thread |
| FeedbackSchema.CheckSlug | my-portfolio/api/feedback.ts:51 | the slug passes exactly when it is a string of 1 to 200 code units, and passes unchanged |
| FeedbackSchema.CheckTrimmed | my-portfolio/api/feedback.ts:52-53 | a string passes exactly when its trimmed form has 1 to n code units, and the value is that trimmed, non-empty form |
| FeedbackSchema.CheckName | my-portfolio/api/feedback.ts:52 | an absent name passes as undefined (the default is not reached); a present one passes exactly when it passes the trimmed check |
| FeedbackSchema.CheckEmail | my-portfolio/api/feedback.ts:54 | the email passes exactly when absent, empty, or accepted by the email check, and is kept untrimmed |
| FeedbackSchema.CheckHp | my-portfolio/api/feedback.ts:55 | the honeypot passes exactly when absent or a string |
| FeedbackSchema.SafeParse | my-portfolio/api/feedback.ts:50-56 | the parse succeeds exactly when the body conforms to every field rule, and the data holds the slug, trimmed message and name, raw email and (Vercel only) hp |
| FeedbackSchema.NewDoc | my-portfolio/api/feedback.ts:91-102 | the stored document has the id and time given, the name or "익명", and an email only when it was non-empty |
| FeedbackSchema.StoredDocWithinBounds | my-portfolio/api/feedback.ts:50-56 | a stored document satisfies the schema's bounds again: trimmed non-empty name and message within the limits, no empty email |
| Wire.DtoJson | my-portfolio/api/feedback.ts:76-84 | a wire entry is a JSON object with exactly `_id`, `slug`, `name`, `message`, `createdAt`, and no `email` |
| Wire.ReadDtoRoundTrip | my-portfolio/src/lib/api.ts:18-24 | reading an entry back from its JSON form gives the entry |
| Wire.ItemsJson | my-portfolio/api/feedback.ts:84 | the JSON array has one element per entry, each reading back as that entry |
| Wire.ReplyJson | my-portfolio/api/feedback.ts:44-48 | a listing is a bare array that reads back entry by entry; errors carry `error` and no `message`; no reply has a `data` property |
| IsoTime.IsoString | my-portfolio/api/feedback.ts:81 | the ISO text has 24 or 27 characters and reads back as the UTC calendar fields that denote the time value |
| IsoTime.IsoStringInjective | my-portfolio/api/feedback.ts:81 | distinct creation times have distinct ISO texts |
| IsoTime.Fields | my-portfolio/api/feedback.ts:81 | the calendar fields lie in range and denote the time value |
| ObjectIds.IdString | my-portfolio/api/feedback.ts:77 | `String(id)` is 24 hex digits that read back as the id |
| ObjectIds.HexRoundTrip | my-portfolio/api/feedback.ts:77 | reading the hex text of bytes back gives the bytes |
| ObjectIds.IdStringInjective | my-portfolio/api/feedback.ts:77 | distinct ids have distinct strings |
| JsString.Trim | my-portfolio/api/feedback.ts:92 | the result has no space at either end and is the input with only spaces removed at both ends |
| JsString.TrimIdempotent | my-portfolio/src/pages/FeedbackPage.tsx:49-51 | trimming twice is trimming once |
| JsString.TrimEmptyIffAllSpace | my-portfolio/src/pages/FeedbackPage.tsx:41 | `s.trim()` is empty if and only if `s` is spaces only |
| JsString.Utf16Length | my-portfolio/src/components/FeedbackForm.tsx:123 | `length` lies between the number of characters and twice that |
| JsString.Utf16LengthConcat | my-portfolio/src/components/FeedbackForm.tsx:123 | the length of a concatenation is the sum of the lengths |
| JsString.DecimalRoundTrip | my-portfolio/src/pages/FeedbackPage.tsx:128 | reading the decimal text of n gives n back |
| JsString.IntDecimalInjective | my-portfolio/src/pages/FeedbackPage.tsx:100 | distinct integers print differently |
| JsString.PaddedNumber | my-portfolio/src/pages/FeedbackPage.tsx:100-105 | `String(n).padStart(w, "0")` has width w, is all digits, and reads back as n |
| ApiClient.NormalizePath | my-portfolio/src/lib/api.ts:8 | the path starts with `/`, is unchanged exactly when it already did, and otherwise is the path behind one slash |
| ApiClient.StripTrailingSlashes | my-portfolio/src/lib/api.ts:12 | the result is a prefix that drops only slashes and does not end in one |
| ApiClient.ApiUrl | my-portfolio/src/lib/api.ts:5-15 | with a blank base the URL is the normalised path; otherwise it is the base without trailing slashes followed by the normalised path |
| ApiClient.UrlEndsWithPath | my-portfolio/src/lib/api.ts:5-15 | every URL ends with the path as given |
| ApiClient.ApiUrlIdempotent | my-portfolio/src/lib/api.ts:8-13 | normalising the path first changes nothing |
| ApiClient.TrailingSlashesIgnored | my-portfolio/src/lib/api.ts:12 | a non-blank base with any number of trailing slashes gives the same URL as without them |
| ApiClient.DataOrEmpty | my-portfolio/src/lib/api.ts:88 | `data.data \|\| []` throws exactly on a `null` body, gives a truthy `data`, and otherwise the empty array |
| ApiClient.GetFeedbacks | my-portfolio/src/lib/api.ts:79-89 | a rejected fetch propagates, a non-2xx status throws its "Failed to fetch feedbacks" text, a 2xx body is read through `data` |
| ApiClient.ListingReadAsEmpty | my-portfolio/src/lib/api.ts:88 | for any listing the servers send, the client as written returns the empty array |
| ApiClient.GetFeedbacksFixed | my-portfolio/src/lib/api.ts:88 | an array body on a 2xx status is the list; any other response is read as before |
| ApiClient.ListingReadBack | my-portfolio/src/lib/api.ts:87-88 | with the fix, the client reads back exactly the listed entries, in order |
| ApiClient.CreateErrorMessage | my-portfolio/src/lib/api.ts:104-107 | the thrown text is the printed truthy `message`, else the status fallback; a `null` body throws a TypeError instead |
| ApiClient.CreateFeedback | my-portfolio/src/lib/api.ts:92-111 | a rejected fetch propagates, a 2xx gives the parsed body, any other status rejects, with the fallback when the body does not parse |
| ApiClient.ServerReasonLost | my-portfolio/src/lib/api.ts:106 | for every rejection the servers send, the client as written shows only the status fallback |
| ApiClient.CreateErrorMessageFixed | my-portfolio/src/lib/api.ts:106 | a truthy `error` gives the text; otherwise the message is chosen as before |
| ApiClient.CreateFeedbackFixed | my-portfolio/src/lib/api.ts:103-108 | the same outcomes as before on rejections, 2xx and non-2xx |
| ApiClient.ServerReasonShown | my-portfolio/src/lib/api.ts:106 | with the fix, a rejection carrying a reason shows that reason |
| LocalDate.DateText | my-portfolio/src/pages/FeedbackPage.tsx:100-102 | a valid date prints as year, dot, two-digit month counted from 1, dot, two-digit day; an invalid one as `NaN.NaN.NaN` |
| LocalDate.TimeText | my-portfolio/src/pages/FeedbackPage.tsx:103-105 | a valid date prints as two-digit hours, colon, two-digit minutes; an invalid one as `NaN:NaN` |
| LocalDate.DateTextInjective | my-portfolio/src/pages/FeedbackPage.tsx:100-102 | the date stamp determines the calendar day |
| LocalDate.TimeTextInjective | my-portfolio/src/pages/FeedbackPage.tsx:103-105 | the time stamp determines hour and minute |
| LocalDate.ValidNeverNaN | my-portfolio/src/pages/FeedbackPage.tsx:99-105 | a valid date never prints like an invalid one |
| FeedbackPayload.BuildPayload | my-portfolio/src/pages/FeedbackPage.tsx:47-53 | the request carries the slug and hp as given, the trimmed message, the trimmed name or "익명" when blank, and the trimmed email exactly when it is not blank |
| FeedbackPayload.PayloadNormal | my-portfolio/src/pages/FeedbackPage.tsx:49-51 | the name is never empty and the name, message and email carry no surrounding spaces |
| FeedbackPayload.BuildPayloadIdempotent | my-portfolio/src/pages/FeedbackPage.tsx:47-53 | building a request from a built request's fields gives it back |
| FeedbackPayload.PayloadConforms | my-portfolio/src/components/FeedbackForm.tsx:27-33 | a request from fields within the schema's bounds passes both servers' schemas |
| FeedbackPayload.VercelStoresPayload | my-portfolio/api/feedback.ts:87-104 | end to end, such a request with an empty honeypot is stored by the Vercel function as exactly the normalised payload, answered 201 |
| FeedbackPayload.ExpressStoresPayload | my-portfolio/server/index.ts:66-87 | the same request is stored the same way by the Express app |
| FeedbackPage.Load | my-portfolio/src/pages/FeedbackPage.tsx:21-33 | a load ends not loading and keeps the draft; success replaces the items and clears the error; failure keeps the items and sets the message or the fixed text |
| FeedbackPage.Submit | my-portfolio/src/pages/FeedbackPage.tsx:39-66 | a blank message changes nothing and sends nothing; otherwise the built payload is sent; success clears name, message and email and leaves the page as a reload leaves it; failure sets the error and keeps the draft |
| FeedbackPage.LoadIdempotent | my-portfolio/src/pages/FeedbackPage.tsx:21-33 | loading again with the same result changes nothing more |
| FeedbackPage.RetrySendsSameRequest | my-portfolio/src/pages/FeedbackPage.tsx:60-65 | after a failed submit, submitting again sends the same request |
| FeedbackPage.SubmitAfterSuccessSendsNothing | my-portfolio/src/pages/FeedbackPage.tsx:56-59 | after a successful submit, submitting again sends nothing |
| FeedbackPage.RowOf | my-portfolio/src/pages/FeedbackPage.tsx:98-119 | a row carries the entry's id as key, its name, its message, and the date stamp and time stamp of its `createdAt` joined by a space |
| FeedbackPage.Render | my-portfolio/src/pages/FeedbackPage.tsx:78-230 | the spinner exactly while loading, then the error, then the empty note, then one row per entry; the count line exactly when neither loading nor erroring; the button disabled exactly when sending or the message is blank |
| FeedbackPage.LoadedPageShowsItems | my-portfolio/src/pages/FeedbackPage.tsx:93-131 | after a successful load the page shows exactly the loaded entries in order, or the empty note, and counts them |
| FeedbackPage.FailedLoadShowsError | my-portfolio/src/pages/FeedbackPage.tsx:83-92 | after a failed load the page shows the error, hides the count and keeps its entries |
| FeedbackForm.Submit | my-portfolio/src/components/FeedbackForm.tsx:19-54 | a blank message does nothing; success shows the overlay, clears the fields and schedules the 1500 ms timer; failure sets the error, keeps the fields and schedules nothing |
| FeedbackForm.TimerFires | my-portfolio/src/components/FeedbackForm.tsx:44-47 | the timer hides the overlay and calls `onSuccess` once |
| FeedbackForm.SuccessCallsBackOnce | my-portfolio/src/components/FeedbackForm.tsx:36-47 | a successful submit leads to exactly one `onSuccess` call, after which the form is back, empty |
| FeedbackForm.FailureNeverCallsBack | my-portfolio/src/components/FeedbackForm.tsx:48-51 | a failed or skipped submit schedules no timer, so `onSuccess` is never called |
| FeedbackForm.Render | my-portfolio/src/components/FeedbackForm.tsx:57-160 | the overlay exactly while the success shows; otherwise the progress bar while sending, the counter as code units "/1000", and the button disabled exactly when sending or blank |
| FeedbackForm.DisabledIffNothingToSend | my-portfolio/src/components/FeedbackForm.tsx:141 | on an idle form the button is disabled if and only if a submit would send nothing |
| FeedbackForm.OverlayHidesEditor | my-portfolio/src/components/FeedbackForm.tsx:57-70 | after a successful submit only the overlay renders, and the editor is back once the timer fires |
| FeedbackList.FormatDateTime | my-portfolio/src/components/FeedbackList.tsx:66-76 | the date and time stamps of a valid date read back as its fields; `NaN` stamps for an invalid one |
| FeedbackList.ArticleAt | my-portfolio/src/components/FeedbackList.tsx:134-167 | an article carries the entry's id, name, message and time attribute, the date and time stamps of its `createdAt` (which read back as its local fields), and holds the ref exactly when it is the last and there is more |
| FeedbackList.Render | my-portfolio/src/components/FeedbackList.tsx:79-211 | with no items: the spinner while loading, else the error panel, else the empty note; with items: the feed of every entry, the load-more spinner exactly while loading more, the "all seen" note exactly when nothing more is coming, the inline error exactly when there is one |
| FeedbackList.FeedListsEveryItem | my-portfolio/src/components/FeedbackList.tsx:134-142 | the feed lists every entry once in order and attaches the ref to the last one only, and only when there is more |
| FeedbackList.ErrorKeepsItems | my-portfolio/src/components/FeedbackList.tsx:199 | an error does not hide entries already shown; only the inline error differs |
| FeedbackList.StampAgreesWithPage | my-portfolio/src/components/FeedbackList.tsx:66-76 | a list article and a page row print the same stamp for the same entry |
| FeedbackList.AttachRef | my-portfolio/src/components/FeedbackList.tsx:26-46 | while loading or loading more the observer stays; otherwise it is replaced by one capturing `hasMore` and observing the node if given |
| FeedbackList.OnIntersect | my-portfolio/src/components/FeedbackList.tsx:32-36 | `onLoadMore` is called exactly when an observing observer sees an intersection and its captured `hasMore` holds |
| FeedbackList.ReplayKeepsHasMore | my-portfolio/src/components/FeedbackList.tsx:142 | when every render that calls the ref has `hasMore`, every observer the ref creates captured `hasMore` as true |
| FeedbackList.NoObserverWhileLoading | my-portfolio/src/components/FeedbackList.tsx:28 | however often the ref is called while loading, the observer is unchanged |
| FeedbackList.LoadMoreOnlyWhenMore | my-portfolio/src/components/FeedbackList.tsx:33-35 | an observer created by the ref loads more on an intersection if and only if it observes something |
| FeedbackList.IdleLastItemLoadsMore | my-portfolio/src/components/FeedbackList.tsx:28-43 | once idle with more to load, the last article intersecting calls `onLoadMore`, and not intersecting does not |
| VelogFeed.NextQuote | my-portfolio/src/utils/fetchVelog.ts:30 | the first quote at or after a position, or none |
| VelogFeed.SrcFor | my-portfolio/src/utils/fetchVelog.ts:30 | for an `<img` the rightmost `src="…"` the greedy `[^>]*` can reach, or none can match |
| VelogFeed.Search | my-portfolio/src/utils/fetchVelog.ts:30 | the leftmost `<img` with a match and its rightmost `src`, or no match anywhere |
| VelogFeed.ExtractFirstImage | my-portfolio/src/utils/fetchVelog.ts:28-32 | nothing for a missing or empty string; otherwise the non-empty quote-free capture of the match the engine reports, and nothing only when no match exists |
| VelogFeed.FirstMatchUnique | my-portfolio/src/utils/fetchVelog.ts:30 | the reported match is unique |
| VelogFeed.GreedyTakesLastSrc | my-portfolio/src/utils/fetchVelog.ts:30 | for `<img src="a" src="b">` the extracted image is `b` |
| VelogFeed.FirstPresent | my-portfolio/src/utils/fetchVelog.ts:35-41 | a chain of `\|\|` gives the first non-empty candidate, none when there is none |
| VelogFeed.PickThumb | my-portfolio/src/utils/fetchVelog.ts:34-42 | the thumbnail, else the enclosure link, else the content's first image, else the description's, each skipped when missing or empty |
| VelogFeed.PickThumbIsFirstPresent | my-portfolio/src/utils/fetchVelog.ts:34-42 | `pickThumb` equals the first present candidate of its list |
| VelogFeed.ToPost | my-portfolio/src/utils/fetchVelog.ts:66-71 | missing title, link and date default to "제목 없음", "#" and ""; the thumbnail is the picked one and never "" |
| VelogFeed.Take | my-portfolio/src/utils/fetchVelog.ts:55 | `slice(0, limit)` is a prefix of length min(limit, n) for a non-negative limit, and n + limit clamped at 0 for a negative one |
| VelogFeed.TakeIdempotent | my-portfolio/src/utils/fetchVelog.ts:55 | slicing again with the same non-negative limit changes nothing |
| VelogFeed.MapItems | my-portfolio/src/utils/fetchVelog.ts:66-71 | one post per taken item, in feed order |
| VelogFeed.FetchPath | my-portfolio/src/utils/fetchVelog.ts:62-79 | a rejected `fetch` or `res.json()` propagates its error with the cache unchanged; a non-ok response throws "rss2json fetch failed"; a `null` body throws reading `items`; any object body settles with its mapped items, none when `items` is missing; posts are cached with the write time when the write succeeds |
| VelogFeed.FetchVelogPosts | my-portfolio/src/utils/fetchVelog.ts:44-80 | a fresh cache entry with posts is served without fetching, sliced to the limit; anything else fetches |
| VelogFeed.UnreadableIgnored | my-portfolio/src/utils/fetchVelog.ts:57-59 | an unreadable cache entry is treated as none |
| VelogFeed.WriteFailureIgnored | my-portfolio/src/utils/fetchVelog.ts:73-77 | a failing cache write does not change what the call settles with |
| VelogFeed.FetchedPostsBounded | my-portfolio/src/utils/fetchVelog.ts:66-71 | fetched posts are at most `limit`, in feed order, with defaults filled and no empty thumbnail |
| VelogFeed.CacheRoundTrip | my-portfolio/src/utils/fetchVelog.ts:47-79 | a successful fetch with a successful write is served back unchanged, without fetching, by any call within the hour |
| BlogSection.FormatDate | my-portfolio/src/section/BlogSection.tsx:9-16 | "" for a missing or empty date; otherwise a stamp that reads back as the date's day, or `NaN.NaN.NaN` |
| BlogSection.FormatDateAgreesWithList | my-portfolio/src/section/BlogSection.tsx:9-16 | the section and the feedback list print the same day for the same date string |
| BlogSection.CardOf | my-portfolio/src/section/BlogSection.tsx:18-68 | a card links the post and shows its title; the image exactly when the thumbnail is present and not blank, the gradient otherwise; the date line exactly when the date is non-empty |
| BlogSection.Settle | my-portfolio/src/section/BlogSection.tsx:74-81 | posts replace the list; any failure sets the fixed error text |
| BlogSection.Render | my-portfolio/src/section/BlogSection.tsx:87-97 | the error wins, then one card per post in order, then the placeholder |
| BlogSection.SectionAfterLoad | my-portfolio/src/section/BlogSection.tsx:74-97 | after the feed settles: the fixed error on any failure; otherwise at most four cards linking the posts in order, or the placeholder for an empty feed |
| EmailModal.Submit | my-portfolio/src/components/EmailModal.tsx:41-65 | an incomplete form alerts and changes nothing; a complete one enters the sending phase at the start time and sends the fields to the configured recipient |
| EmailModal.Wait | my-portfolio/src/components/EmailModal.tsx:67-68 | the wait is non-negative, makes the sending phase last at least the minimum, and is zero or exactly the remainder |
| EmailModal.WaitLeast | my-portfolio/src/components/EmailModal.tsx:68 | no shorter non-negative wait reaches the minimum |
| EmailModal.Settle | my-portfolio/src/components/EmailModal.tsx:65-86 | success keeps the state and schedules the first timer for the rest of the minimum; failure returns to the form with the fields kept and alerts |
| EmailModal.SuccessShown | my-portfolio/src/components/EmailModal.tsx:70-74 | the first timer shows the success phase, ends sending, clears the fields and schedules the second timer |
| EmailModal.Closed | my-portfolio/src/components/EmailModal.tsx:75-79 | the second timer calls `onSuccess` if given, then `onClose`, and returns to the form phase |
| EmailModal.SendSucceeds | my-portfolio/src/components/EmailModal.tsx:52-80 | a successful send: sending for at least the minimum, then success with fields cleared, then the callbacks ending with `onClose` and the form phase |
| EmailModal.RetrySendsSameMail | my-portfolio/src/components/EmailModal.tsx:81-85 | a failed send keeps the fields, so sending again sends the same mail |
| EmailModal.BlanksPass | my-portfolio/src/components/EmailModal.tsx:42-50 | non-empty fields made only of spaces, which `trim()` would empty, pass the `!field` check and are sent as they are |
| EmailModal.DefaultTimings | my-portfolio/src/components/EmailModal.tsx:26-29 | with no optional properties the mail goes to the default recipient, an immediate settle waits the full 2000 ms, and the success phase shows for 1900 ms |
| EmailModal.StepsKeepConsistent | my-portfolio/src/components/EmailModal.tsx:52-84 | every step keeps the sending flag equal to being in the sending phase, with a start time recorded |
| EmailModal.Render | my-portfolio/src/components/EmailModal.tsx:93-260 | nothing when closed; the close button exactly when not sending and not in success; the form exactly in the form phase, its button disabled exactly while sending; each animation exactly in its phase |
| EmailModal.CloseOnlyInForm | my-portfolio/src/components/EmailModal.tsx:99 | in every reachable state the close button shows exactly in the form phase, where sending is enabled |

## Left out

- The MongoDB connection singletons (`api/_lib/mongo.ts`, `server/db.ts`) and `createIndex` are not modelled. They do not affect what is stored or listed. The store is a parameter.
- Documents with equal `createdAt` are listed in an order the model fixes: a stable sort of the store order. MongoDB leaves that order unspecified. The contracts of `FeedbackStore.Listing`, `FeedbackStore.NewestHeadsListing`, `ServerDivergence.NewEntryHeadsWireListing` and `ServerDivergence.CreateThenList` do not depend on it.
- VercelFeedback.GetOutcome, VercelFeedback.GetReplies, VercelFeedback.GetListsThread, VercelFeedback.PostThenGet and ExpressFeedback.GetListsThread equate a reply with the model's `Listing`, so among documents with equal `createdAt` they state the model's fixed order, which MongoDB does not promise.
- `ApiClient.health`, `ApiClient.deleteFeedback`, `logApiInfo` and the `/api/health` route are not part of the guestbook cycle. Deleting entries has no server route in either server.
- The `cors()` middleware (server/index.ts:11) is not modelled: it adds CORS headers and answers every OPTIONS request with 204 before the routes. `ExpressFeedback.Handle` only says that no feedback route matches such a request. Also left out: headers other than `Allow`, the Content-Type, the HEAD body and Express's JSON body parser are not modelled; they are transport. A body that does not parse as JSON is rejected by Express before the route runs.
- Express's nested query parsing (`?slug[a]=b` becomes an object) is not modelled. A parameter is absent, a string, or an array of strings.
- JSON numbers are integers in the model; floating point is left out. A cached `ts` that is neither a number nor missing is not modelled.
- The cache entry is written and read back as the same posts; the JSON serialisation round trip in between is taken as the identity.
- Local storage, `fetch`, emailjs, `alert` and `console` appear only as the values they produce.
  - Each awaited call is an input of the handler that awaits it.
  - A timer is a separate event.
  - Overlapping submits, timers outliving the component, and animations are not modelled.
- `handleChange` and the inputs' change handlers are not modelled; any field value is a possible state.
- `FeedbackList`: the `handleRetry` wrapper (it calls the parent's retry and only logs a failure) and the unmount cleanup are not modelled. The observer's `threshold` and `rootMargin` are not modelled either; whether an element intersects is an input.
- ExpressFeedback.ErrorText: the database is taken to throw only `Error` instances. For a thrown non-Error object, Express's `(e as Error).message` would use that object's own `message` when it has one, and a thrown `null` would make the catch clause itself throw; the model answers "Internal Server Error" for every non-Error value, as the Vercel function does.
- The email syntax check of zod is the uninterpreted parameter `isEmail`.
- Parsing a date string and the local time zone are not modelled. `new Date(s)` is given as its local calendar fields, or as invalid.
- `IsoTime.IsoString` covers time values within the range of a valid `Date`. `new Date()` always gives one.

## Findings

| source | as written | input that shows it | evidently intended | confidence | as-written member | corrected member |
|---|---|---|---|---|---|---|
| my-portfolio/src/lib/api.ts:88 | `getFeedbacks` returns `data.data \|\| []`, but both servers send the listing as a bare JSON array, which has no `data` property | any 200 listing, e.g. one entry `[{"_id":"…","slug":"/feedback",…}]`, is returned as `[]` | return the array body itself | not executed | ApiClient.ListingReadAsEmpty | ApiClient.ListingReadBack |
| my-portfolio/src/lib/api.ts:106 | `createFeedback` throws `errorData.message \|\| "Failed to create feedback: <status>"`, but both servers put the reason in `error` | a 400 `{"error":"Invalid input"}` throws "Failed to create feedback: 400" | show the server's `error` text | not executed | ApiClient.ServerReasonLost | ApiClient.ServerReasonShown |

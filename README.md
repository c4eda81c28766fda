# Chat cache and PDF page navigation, modelled in Dafny

This project models two client-side components of a "chat with your PDF"
web application.

**The chat provider** (`ChatContext.tsx`) keeps three pieces of state: the
draft message, a loading flag and a backup of the last submitted text. It
sends a message through a mutation with four callbacks:

- `onMutate` backs up and clears the draft, cancels fetches, snapshots the
  cache and optimistically prepends the user's message to the first page of
  the cached infinite query.
- `onSuccess` reads the reply stream chunk by chunk. After every read it
  upserts an assistant message under the reserved id `ai-response`: it
  inserts the message at the front of the first page, or overwrites the text
  of the one already there.
- `onError` restores the draft and writes the rollback context into the
  cache.
- `onSettled` clears the loading flag and invalidates the query.

The model has five modules:

- `ChatCache` models the page/message data and the two cache updaters. The
  optimistic insert is a method. The streaming upsert is a function.
- `TrpcCache` is a class holding the query cache as a map from exact query
  keys to entries. Cancel and invalidate are recorded in a ghost event log.
- `ChatContext` is the `ChatProvider` class. Its `OnSuccess` method carries
  the reader loop with its invariants. `AddMessage` composes the callbacks
  along every outcome of the request.
- `PdfView` models the PDF viewer's page navigation as a `Viewer` class. The
  fields are the text of the page field, the current page, the page count
  (absent until the document loads) and the rotation. The methods are the
  jump-to-page form, the previous and next buttons with their `disabled`
  guards, the rotate button and the load callback.
- `JsNumbers` models the JavaScript conversions the page field goes through:
  `Number(text)` (StringToNumber in section 7.1.4.1.1 of ECMA-262), `String(n)`
  and the `<`/`<=` comparisons with NaN.

Properties of note:

- Because the cache keys are exact, the rollback snapshot is read from the
  input-less infinite key. Both updaters write `{ fileId, limit }`, and the
  rollback is written to the plain `{ fileId }` key. The model keeps these
  keys literally.
- The upsert checks for a sentinel on any page but only rewrites the first
  page. So a sentinel found only on a later page makes the upsert a no-op
  (`UpsertIgnoresLaterPageSentinel`).
- The upsert is last-write-wins and idempotent. A stream into a conversation
  without a sentinel leaves exactly one assistant message, at the front,
  holding the full reply. End to end (`AddMessage`), a delivered reply into a
  non-empty page list leaves the first page as `[assistant reply, user
  message] + old first page` when no page held a sentinel before. When the
  previous reply's sentinel is still cached (the refetch has not replaced it),
  no new assistant message is inserted: the page becomes `[user message] +
  old first page` with the old sentinel's text overwritten by the new reply
  (`InsertThenStreamOverReply`).
- A failed request writes the rollback to the plain `{ fileId }` key, so the
  `{ fileId, limit }` pages keep the optimistic user message (`AddMessage`).
- The page validator does not require a whole number. "1.5" is accepted on a
  three-page document (`FractionalInputAccepted`). With numbers read as
  exact rationals, `currentPage === totalPages` never holds from a page that
  is not whole, so next stays enabled past the last page, and previous from
  1.5 reaches 0.5 (`NextClicksFromFraction`, `FractionalPageEscapesRange`).
  In IEEE-754 doubles this holds for fractions that survive the additions,
  such as 1.5, but not for tiny ones such as 1e-17, which rounds away. Whole pages stay within `[1, totalPages]`
  (`NextClicksStayInRange`). Before the document loads, next has no bound at
  all (`NextUnboundedWhileLoading`).

## Model

| member | source | states |
|---|---|---|
| JsNumbers.TrimStartRemovesWhiteSpace | src/components/PDFView.tsx:31 | `Number` ignores leading white space: trimming keeps a suffix, everything dropped is white space, and what is kept does not start with any |
| JsNumbers.TrimEndRemovesWhiteSpace | src/components/PDFView.tsx:31 | `Number` ignores trailing white space: trimming keeps a prefix, everything dropped is white space, and what is kept does not end with any |
| JsNumbers.LeadingDigits | src/components/PDFView.tsx:31 | the length of the longest all-digit prefix of the input |
| JsNumbers.FractionValue | src/components/PDFView.tsx:31 | the digits after a decimal point contribute a value in [0, 1) |
| JsNumbers.ShowNat | src/components/PDFView.tsx:61 | `String` of a natural number is a non-empty digit string |
| JsNumbers.ShowNatValue | src/components/PDFView.tsx:61 | reading back the digits `String` writes for a natural number gives that number |
| JsNumbers.LeadingDigitsOfDigits | src/components/PDFView.tsx:31 | on an all-digit string, the digit prefix is the whole string |
| JsNumbers.LeadingDigitsStop | src/components/PDFView.tsx:31 | the digit prefix ends at the first character that is not a digit |
| JsNumbers.UnsignedDecimalOfDigits | src/components/PDFView.tsx:31 | a plain digit string converts to its decimal value |
| JsNumbers.AfterPointOfDigits | src/components/PDFView.tsx:31 | a point followed by digits adds their fraction to the whole part |
| JsNumbers.UnsignedDecimalWithFraction | src/components/PDFView.tsx:31 | `whole.fraction` converts to the whole digits' value plus the fraction digits' value |
| JsNumbers.TrimOfPlainText | src/components/PDFView.tsx:31 | text without white space at either end is left unchanged by trimming |
| JsNumbers.ToNumberOfDecimal | src/components/PDFView.tsx:31 | text that starts with a digit, has no `0x`/`0o`/`0b` prefix and no trailing white space is read as a decimal literal |
| JsNumbers.ToNumberOfDigits | src/components/PDFView.tsx:31 | `Number` of a digit string is its decimal value |
| JsNumbers.ToNumberOfNegatedDigits | src/components/PDFView.tsx:31 | `Number` of a minus sign and a digit string is the negated value |
| JsNumbers.ToNumberWithFraction | src/components/PDFView.tsx:31 | `Number` of `whole.fraction` is the whole value plus the fraction value |
| JsNumbers.ShowNumberOfNat | src/components/PDFView.tsx:61 | `String` of a natural number is its digits, with no point |
| JsNumbers.ShowNatRoundTrip | src/components/PDFView.tsx:61 | the digits of a natural number read back as that number |
| JsNumbers.ShowNegativeRoundTrip | src/components/PDFView.tsx:61 | `String` of a negative whole number reads back as that number |
| JsNumbers.ShowNumberRoundTrip | src/components/PDFView.tsx:61 | `Number(String(k)) == k` for every whole number k, negative ones included |
| JsNumbers.LessOrEqualFinite | src/components/PDFView.tsx:31 | on finite numbers `<=` is the order of the reals, in both directions |
| JsNumbers.NaNIsIncomparable | src/components/PDFView.tsx:31 | every `<` and `<=` with NaN on either side is false |
| PdfView.PageAcceptedIff | src/components/PDFView.tsx:30-32 | the validator accepts exactly when the page count is known and `Number(input)` is a finite number in (0, totalPages]; an unknown count (NaN) rejects everything |
| PdfView.AcceptedOfValue | src/components/PDFView.tsx:30-32 | any text that reads as a number in (0, totalPages] is accepted, whatever its form |
| PdfView.ClampsMatchGuards | src/components/PDFView.tsx:57-89 | the updaters' clamps test the same conditions as the buttons' `disabled` guards, so an enabled click moves the page by exactly one |
| PdfView.PrevKeepsRange | src/components/PDFView.tsx:57-62 | previous keeps a whole page within [1, totalPages] |
| PdfView.NextKeepsRange | src/components/PDFView.tsx:82-89 | an enabled next keeps a whole page within [1, totalPages] |
| PdfView.NextClicksStayInRange | src/components/PDFView.tsx:82-89 | from a whole page in range, any number of next clicks stays in range: the button disables at the last page |
| PdfView.NextUnboundedWhileLoading | src/components/PDFView.tsx:82-89 | while the page count is unknown, next is never disabled and n clicks add n to the page |
| PdfView.WholePageInRange | src/components/PDFView.tsx:30-46 | a whole page in (0, totalPages] is in range |
| PdfView.FractionalInputAccepted | src/components/PDFView.tsx:30-46 | `w.f` reads as the whole value plus the fraction value, and is accepted whenever that value is in (0, totalPages]: the validator does not ask for a whole page. With a non-zero fraction the accepted page lies strictly between the whole part and the next whole number, so it is not whole |
| PdfView.NextClicksFromFraction | src/components/PDFView.tsx:82-89 | from a page that is not whole, next is never disabled and n clicks add n |
| PdfView.FractionalPageEscapesRange | src/components/PDFView.tsx:57-89 | from a page that is not whole, `totalPages` clicks on next pass the last page with the button still enabled, and previous from a page between 1 and 2 goes below 1 |
| PdfView.WholeFieldReadsBack | src/components/PDFView.tsx:57-89 | for a whole page, the text the buttons write into the field reads back as that page |
| PdfView.Viewer.constructor | src/components/PDFView.tsx:36-51 | initial state: field "1", page 1, page count unknown, rotation 0 |
| PdfView.Viewer.EditPage | src/components/PDFView.tsx:68 | typing sets the field's text and nothing else |
| PdfView.Viewer.SubmitPage | src/components/PDFView.tsx:30-46 | Enter reports whether the validator accepted the field. If accepted, the page becomes `Number(field)` and is positive, a whole page is in range, and the field text is unchanged. Otherwise nothing changes |
| PdfView.Viewer.ClickPrevious | src/components/PDFView.tsx:57-62 | a disabled click does nothing. Otherwise the page goes through the clamp and the field shows `String(old page - 1)`, which reads back as the new page when the page is whole. The range is preserved |
| PdfView.Viewer.ClickNext | src/components/PDFView.tsx:82-89 | a disabled click does nothing. Otherwise the page goes through the clamp and the field shows `String(old page + 1)`, which reads back as the new page when the page is whole. The range is preserved |
| PdfView.Viewer.Rotate | src/components/PDFView.tsx:128 | rotation grows by exactly 90, with no reduction modulo 360 |
| PdfView.Viewer.LoadSuccess | src/components/PDFView.tsx:154-156 | the page count becomes the document's; page 1 is then in range for a non-empty document |
| ChatCache.FlatPagesAppend | src/components/chat/ChatContext.tsx:102-104 | flattening distributes over concatenation of page lists |
| ChatCache.FlatPagesAt | src/components/chat/ChatContext.tsx:102-104 | flattening keeps order: message i of page k sits at the page's offset plus i |
| ChatCache.FlatPagesHas | src/components/chat/ChatContext.tsx:102-104 | a message is in the flattened list exactly when some page holds it |
| ChatCache.RollbackContextContents | src/components/chat/ChatContext.tsx:100-105 | the rollback context is [] when nothing was cached; otherwise it holds exactly the messages of all pages |
| ChatCache.FlatPagesNewFirst | src/components/chat/ChatContext.tsx:75-94 | replacing the first page's messages replaces the head of the flattened list |
| ChatCache.InsertedAtFrontFlattens | src/components/chat/ChatContext.tsx:75-94 | after the optimistic insert, the flattened list is the user's message followed by the old list |
| ChatCache.OptimisticInsert | src/components/chat/ChatContext.tsx:66-96 | no cached value gives empty pages; an empty page list throws; otherwise the user's message is prepended to the first page and every other page, field and page param is kept |
| ChatCache.UpsertShape | src/components/chat/ChatContext.tsx:133-186 | no cached value gives empty pages; otherwise the page count and page params are kept |
| ChatCache.UpsertInsertsWhenAbsent | src/components/chat/ChatContext.tsx:143-157 | with no sentinel anywhere, the first page gains exactly the assistant message at its front; nothing else changes |
| ChatCache.UpsertOverwritesWhenPresent | src/components/chat/ChatContext.tsx:158-169 | with a sentinel somewhere, first-page sentinels take the accumulated text with their other fields kept; other messages and pages are kept |
| ChatCache.UpsertIgnoresLaterPageSentinel | src/components/chat/ChatContext.tsx:139-179 | a sentinel that exists only on a later page makes the upsert change nothing |
| ChatCache.OverwriteWithoutSentinel | src/components/chat/ChatContext.tsx:159-168 | the overwrite map is the identity on a list with no sentinel |
| ChatCache.UpsertCreatesSentinel | src/components/chat/ChatContext.tsx:139-184 | after an upsert on a non-empty page list, a sentinel exists |
| ChatCache.UpsertLastWriteWins | src/components/chat/ChatContext.tsx:127-186 | two successive upserts equal one upsert with the later accumulated text |
| ChatCache.UpsertIdempotent | src/components/chat/ChatContext.tsx:133-186 | repeating an upsert with the same text changes nothing further |
| ChatCache.CountAiAppend | src/components/chat/ChatContext.tsx:139-141 | sentinel counts add over concatenation |
| ChatCache.CountAiNone | src/components/chat/ChatContext.tsx:139-141 | a list for which `some(id === 'ai-response')` is false has no sentinel |
| ChatCache.CountAiNoPages | src/components/chat/ChatContext.tsx:139-141 | when no page holds the sentinel, the flattened list has none |
| ChatCache.InsertedAtFrontKeepsNoSentinel | src/components/chat/ChatContext.tsx:79-87 | the optimistic insert of a non-sentinel message does not create a sentinel |
| ChatCache.InsertThenStream | src/components/chat/ChatContext.tsx:75-184 | the optimistic insert of a non-sentinel user message followed by the upsert of a reply leaves the first page as `[reply, user message] + old messages` and keeps every other page |
| ChatCache.InsertThenStreamOverReply | src/components/chat/ChatContext.tsx:75-184 | a second submit while the previous reply's sentinel is still cached: the upsert overwrites the old sentinel instead of inserting, so the first page ends as `[user message] + old messages` with every old sentinel carrying the new reply; other pages and params are kept |
| ChatCache.StreamLeavesOneAiResponse | src/components/chat/ChatContext.tsx:139-184 | a stream into a conversation without a sentinel leaves exactly one sentinel in the whole cache: the first message of the first page, carrying the latest text |
| TrpcCache.ProcedureCache.constructor | src/components/chat/ChatContext.tsx:30 | the cache starts empty with an empty event log |
| TrpcCache.ProcedureCache.Cancel | src/components/chat/ChatContext.tsx:62 | cancel leaves every cached value and logs the cancellation |
| TrpcCache.ProcedureCache.SetInfiniteData | src/components/chat/ChatContext.tsx:66 | writes exactly the infinite entry of the given input |
| TrpcCache.ProcedureCache.SetData | src/components/chat/ChatContext.tsx:193-196 | writes exactly the plain entry of the given input |
| TrpcCache.ProcedureCache.Invalidate | src/components/chat/ChatContext.tsx:201 | leaves every cached value and logs the invalidation of the given input |
| ChatContext.FirstDone | src/components/chat/ChatContext.tsx:127-129 | the index of the first read that reports done: that read is done and none before it is |
| ChatContext.TextsAppend | src/components/chat/ChatContext.tsx:131 | the accumulated text of two runs of reads is the concatenation of their texts |
| ChatContext.BodyTexts | src/components/chat/ChatContext.tsx:131 | reads carrying given chunks accumulate to the concatenation of the chunks |
| ChatContext.StreamedChunks | src/components/chat/ChatContext.tsx:125-131 | chunks followed by an empty final read stream exactly the concatenation of the chunks |
| ChatContext.ChatProvider.constructor | src/components/chat/ChatContext.tsx:27-39 | empty draft, not loading, empty backup |
| ChatContext.ChatProvider.HandleInputChange | src/components/chat/ChatContext.tsx:207-209 | the draft becomes the text area's value and nothing else changes |
| ChatContext.ChatProvider.OnMutate | src/components/chat/ChatContext.tsx:58-106 | backs up and clears the draft. Cancels and then writes the `{ fileId, limit }` key with the optimistic insert; when the insert throws, only the cancel happens. Loading is set only on success. The returned context is the flattened snapshot of the input-less key |
| ChatContext.ChatProvider.OnSuccess | src/components/chat/ChatContext.tsx:109-189 | clears loading. With no body: adds the notice and leaves the cache as it was. Otherwise: one write per read up to and including the first done read, and the entry ends as one upsert of the whole streamed text |
| ChatContext.ChatProvider.UpsertAiResponse | src/components/chat/ChatContext.tsx:133-186 | one write of the reader loop: the `{ fileId, limit }` entry becomes the upsert of the accumulated text over its previous value, and nothing else changes |
| ChatContext.ChatProvider.OnError | src/components/chat/ChatContext.tsx:191-197 | the draft is restored from the backup, and the plain `{ fileId }` entry is set to the context's messages, or [] without a context |
| ChatContext.ChatProvider.OnSettled | src/components/chat/ChatContext.tsx:198-202 | clears loading and invalidates `{ fileId }` without touching cached values |
| ChatContext.ChatProvider.AddMessage | src/components/chat/ChatContext.tsx:41-211 | on every outcome: loading ends false, the backup is the old draft, and the whole cache and event log are stated. A throwing insert: draft restored, no notice, only `{ fileId }` set to [], log cancel/write/invalidate. A failed request: draft restored, no notice, the `{ fileId, limit }` entry keeps the optimistic insert (stamped `sentAt`) and `{ fileId }` gets the rollback context; no other key changes. Delivery: draft cleared, a notice exactly when there is no body, and `{ fileId, limit }` holds the insert, then the upsert of the streamed reply (stamped `repliedAt`) when there is a body. On a non-empty page list the first page ends as `[reply, user message] + old messages` when no sentinel was cached, and as `[user message] + old messages with the sentinel's text replaced` when one was |
| ChatCache.FlatPages | src/components/chat/ChatContext.tsx:102-104 | `pages.flatMap((page) => page.messages)`: each page's messages in page order; its properties are `FlatPagesAppend`, `FlatPagesAt` and `FlatPagesHas` |
| ChatCache.RollbackContext | src/components/chat/ChatContext.tsx:100-105 | `previousMessages?.pages.flatMap(...) ?? []`; its contents are stated by `RollbackContextContents` |
| ChatCache.InsertedAtFront | src/components/chat/ChatContext.tsx:75-94 | the relation between the cached value and the result of the optimistic insert: the user's message at the front of the first page, every other page, field and param unchanged |
| ChatCache.OptimisticOutcome | src/components/chat/ChatContext.tsx:66-96 | what the `onMutate` updater returns when it does not throw: empty pages when nothing was cached, otherwise `InsertedAtFront` |
| ChatCache.AiResponseCreated | src/components/chat/ChatContext.tsx:139-141 | `isAIResponseCreated`: some page, not only the first, holds a message with id `'ai-response'` |
| ChatCache.OverwriteAiResponses | src/components/chat/ChatContext.tsx:159-168 | the `messages.map` that gives every sentinel the accumulated text; `OverwriteWithoutSentinel` shows it is the identity without one |
| ChatCache.UpsertAi | src/components/chat/ChatContext.tsx:133-186 | the streaming updater: nothing cached gives empty pages, an empty page list is returned as it is, otherwise only the first page is rebuilt, by insertion when no page holds the sentinel and by overwrite when one does. Its behaviour is stated by `UpsertShape`, `UpsertInsertsWhenAbsent`, `UpsertOverwritesWhenPresent`, `UpsertIgnoresLaterPageSentinel` and `UpsertLastWriteWins` |
| TrpcCache.ProcedureCache.GetInfiniteData | src/components/chat/ChatContext.tsx:64 | `getInfiniteData(input)`: the paged value cached under exactly that input's infinite key, or none |
| ChatContext.Texts | src/components/chat/ChatContext.tsx:125-131 | the decoded chunks of some reads concatenated in order, as `accumulatedResponse +=` builds them; `TextsAppend` and `BodyTexts` state its contents |
| ChatContext.StreamedText | src/components/chat/ChatContext.tsx:125-131 | the whole reply: the chunks of every read up to and including the first done read; `StreamedChunks` states it for a concrete stream |
| JsNumbers.ToNumber | src/components/PDFView.tsx:31 | `Number(text)`: trim white space, empty text is 0, a `0x`/`0o`/`0b` prefix reads the digits in that radix, otherwise an optionally signed decimal literal or `Infinity`, and anything else is NaN. Its behaviour is stated by the `ToNumberOf…`, `ToNumberWithFraction` and `ShowNumberRoundTrip` lemmas |
| JsNumbers.ShowNumber | src/components/PDFView.tsx:61 | `String(n)` of a page number; `ShowNumberOfNat` and `ShowNumberRoundTrip` state it for whole numbers |
| JsNumbers.Less | src/components/PDFView.tsx:31 | JavaScript `<` on numbers: false whenever NaN is involved (`NaNIsIncomparable`) |
| JsNumbers.LessOrEqual | src/components/PDFView.tsx:31 | JavaScript `<=` on numbers: the order of the reals on finite values (`LessOrEqualFinite`), false with NaN |
| PdfView.PageAccepted | src/components/PDFView.tsx:30-32 | `customPageValidator`: `Number(input) > 0 && Number(input) <= totalPages!`, with an unknown count read as NaN; `PageAcceptedIff` states it |
| PdfView.PrevDisabled | src/components/PDFView.tsx:58 | the previous button is disabled when `currentPage <= 1` |
| PdfView.NextDisabled | src/components/PDFView.tsx:83 | the next button is disabled when `currentPage === totalPages`; `currentPage === undefined` cannot hold |
| PdfView.PrevPage | src/components/PDFView.tsx:60 | the previous updater's clamp; `ClampsMatchGuards` and `PrevKeepsRange` state it |
| PdfView.NextPage | src/components/PDFView.tsx:85-87 | the next updater's clamp; `ClampsMatchGuards` and `NextKeepsRange` state it |
| PdfView.NextClicks | src/components/PDFView.tsx:82-89 | the page after n clicks on next, a disabled click doing nothing; `NextClicksStayInRange`, `NextUnboundedWhileLoading` and `NextClicksFromFraction` state it |

## Left out

- The HTTP request in `mutationFn` is not modelled: its outcome is the `Reply` parameter of `AddMessage`.
- `TextDecoder` is not modelled: each read carries already-decoded text.
- `crypto.randomUUID()` and `new Date().toISOString()` are parameters. The UUID is the `id` argument. The clock is `sentAt` for the user's message and `repliedAt` for the reply in `AddMessage`, and `now` in the single callbacks.
- Toasts are not shown; they are a ghost notice log in the chat provider. The PDF `onLoadError` toast is left out.
- `cancel` and `invalidate` only record an event. The refetch they trigger runs on the network and is not modelled.
- Interleaving of the async callbacks with other renders or mutations is not modelled. The callbacks run in order, one submit at a time.
- A stream read that rejects, making `onSuccess` throw after some writes, is not modelled.
- `ChatContext.ChatProvider.OnSuccess`: uses one `now` for all reads of a stream, not a fresh `Date` per read. This cannot change the result: only the first upsert inserts a message.
- `ChatContext.ChatProvider.OnSuccess`: requires the stream to report `done` eventually. On a stream that never does, the source's reader loop never ends, and a terminating method cannot model that. `AddMessage` carries the same requirement for a delivered body.
- `ChatCache.OptimisticInsert`: writes `latestPage.messages` in place, which mutates the page object shared with the old cache value. The model returns a new value instead. The aliasing is not observable here, because the snapshot is read from a different key.
- The value of `INFINITE_QUERY_LIMIT` comes from `src/config/infiniteQuery`, which is not part of this model. It is the provider's `limit` constant.
- The zoom `scale` menu (`src/components/PDFView.tsx:106-123`) and all rendering are left out: they do not affect navigation state.
- The form's validation `errors` state and its styling are left out. A rejected submit simply changes nothing.
- `PdfView.PageAccepted`: numbers are exact rationals. IEEE-754 rounding, overflow to Infinity and underflow of very long inputs are not modelled.
- `PdfView.NextClicksFromFraction` and `PdfView.FractionalPageEscapesRange` rest on the same exact arithmetic. In doubles a tiny fraction is lost, so "1e-17" is accepted and `1e-17 + 1 === 1`; on a one-page document next then disables at page 1, while the model says the page passes 1.
- `JsNumbers.ShowNumber`: fractional values are written with at most 20 digits of their exact expansion, not the shortest text that reads back as the same double. Values of 1e21 or more are not written in exponent notation. `ClickPrevious` and `ClickNext` write `ShowNumber(old page ∓ 1)` for any page, but the read-back through `Number` is proved only for whole pages.
- Other repository files (API routes, database, upload button, dashboard, layout, AI client) are not part of this model.

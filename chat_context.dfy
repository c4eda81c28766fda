/**
 * The chat provider of one document: the draft `message`, the `isLoading`
 * flag and the `backupMessage` ref, and the four mutation callbacks that
 * `addMessage` runs in order: `onMutate`, then `onSuccess` or `onError`,
 * then `onSettled`.
 */
module ChatContext {
  import opened Common
  import opened ChatCache
  import opened TrpcCache

  /** One `reader.read()`: whether the stream reported `done`, and the decoded text of its value. */
  datatype ReadResult = ReadResult(done: bool, text: string)

  /**
   * How the request of `mutationFn` settles: it throws (a non-ok status or a
   * failed fetch), or it returns `response.body`, absent or a stream.
   */
  datatype Reply = SendFailed | Delivered(body: Option<seq<ReadResult>>)

  /** What `onMutate` hands to the later callbacks. */
  datatype MutationContext = MutationContext(previousMessages: seq<Message>)

  /** The destructive toast shown when the reply has no body. */
  datatype Notice = NoStreamNotice

  /** The stream eventually reports `done`. */
  predicate Terminates(results: seq<ReadResult>) {
    exists k :: 0 <= k < |results| && results[k].done
  }

  /** The index of the read that reports `done`: the loop stops right after it. */
  function FirstDone(results: seq<ReadResult>): (n: nat)
    requires Terminates(results)
    ensures n < |results| && results[n].done
    ensures forall j :: 0 <= j < n ==> !results[j].done
  {
    if results[0].done then 0
    else
      var k :| 0 <= k < |results| && results[k].done;
      assert results[1..][k - 1].done;
      1 + FirstDone(results[1..])
  }

  /** The decoded chunks of some reads, concatenated in order. */
  function Texts(results: seq<ReadResult>): string {
    if results == [] then "" else Texts(results[..|results| - 1]) + results[|results| - 1].text
  }

  /** The whole reply: every chunk up to and including the read that reports `done`. */
  function StreamedText(results: seq<ReadResult>): string
    requires Terminates(results)
  {
    Texts(results[..FirstDone(results) + 1])
  }

  /** `n` writes to the same key, as the log records them. */
  function Writes(key: QueryKey, n: nat): seq<CacheEvent> {
    seq(n, _ => Wrote(key))
  }

  /** Whether the `onMutate` updater throws on the value cached under its key. */
  predicate InsertThrows(cached: Option<InfiniteData>) {
    cached.Some? && cached.value.pages == []
  }

  /** One more read appends its text to the accumulated reply. */
  lemma TextsStep(results: seq<ReadResult>, i: nat)
    requires i < |results|
    ensures Texts(results[..i + 1]) == Texts(results[..i]) + results[i].text
  {
    assert results[..i + 1][..i] == results[..i];
  }

  /** Before the first done read, a read is done exactly when it is that read. */
  lemma DoneStep(results: seq<ReadResult>, i: nat)
    requires Terminates(results) && i <= FirstDone(results)
    ensures results[i].done <==> i == FirstDone(results)
  {
  }

  lemma WritesStep(key: QueryKey, n: nat)
    ensures Writes(key, n + 1) == Writes(key, n) + [Wrote(key)]
  {
  }

  lemma {:induction false} TextsAppend(a: seq<ReadResult>, b: seq<ReadResult>)
    ensures Texts(a + b) == Texts(a) + Texts(b)
    decreases |b|
  {
    if b == [] {
      assert a + b == a;
    } else {
      assert (a + b)[..|a + b| - 1] == a + b[..|b| - 1];
      TextsAppend(a, b[..|b| - 1]);
    }
  }

  /** The streamed text of chunks followed by a final empty `done` read is the chunks in order. */
  lemma StreamedChunks(chunks: seq<string>)
    ensures var results := seq(|chunks|, i requires 0 <= i < |chunks| => ReadResult(false, chunks[i])) + [ReadResult(true, "")];
      Terminates(results) && FirstDone(results) == |chunks| && StreamedText(results) == Concat(chunks)
  {
    var body := seq(|chunks|, i requires 0 <= i < |chunks| => ReadResult(false, chunks[i]));
    var results := body + [ReadResult(true, "")];
    assert results[|chunks|].done;
    assert results[..|chunks| + 1] == results;
    TextsAppend(body, [ReadResult(true, "")]);
    BodyTexts(chunks);
  }

  function Concat(chunks: seq<string>): string {
    if chunks == [] then "" else Concat(chunks[..|chunks| - 1]) + chunks[|chunks| - 1]
  }

  lemma {:induction false} BodyTexts(chunks: seq<string>)
    ensures Texts(seq(|chunks|, i requires 0 <= i < |chunks| => ReadResult(false, chunks[i]))) == Concat(chunks)
  {
    if chunks != [] {
      var body := seq(|chunks|, i requires 0 <= i < |chunks| => ReadResult(false, chunks[i]));
      var front := chunks[..|chunks| - 1];
      assert body[..|body| - 1] == seq(|front|, i requires 0 <= i < |front| => ReadResult(false, front[i]));
      BodyTexts(front);
    }
  }

  class ChatProvider {
    const fileId: string
    /** `INFINITE_QUERY_LIMIT`, whose value lives in a configuration file. */
    const limit: int
    /** `trpc.useContext()`: the cache entries of `getFileMessages`. */
    const utils: ProcedureCache

    var message: string
    var isLoading: bool
    var backupMessage: string
    ghost var notices: seq<Notice>

    /** The key both updaters write: `{ fileId, limit: INFINITE_QUERY_LIMIT }`. */
    function PagesInput(): QueryInput {
      FileLimitInput(fileId, limit)
    }

    constructor (fileId: string, limit: int, utils: ProcedureCache)
      ensures this.fileId == fileId && this.limit == limit && this.utils == utils
      ensures message == "" && !isLoading && backupMessage == "" && notices == []
    {
      this.fileId := fileId;
      this.limit := limit;
      this.utils := utils;
      message := "";
      isLoading := false;
      backupMessage := "";
      notices := [];
    }

    /** `handleInputChange`: the draft follows the text area. */
    method HandleInputChange(value: string)
      modifies this
      ensures message == value
      ensures isLoading == old(isLoading) && backupMessage == old(backupMessage) && notices == old(notices)
    {
      message := value;
    }

    /**
     * `onMutate`: back up and clear the draft, cancel fetches, read the
     * snapshot (`getInfiniteData()` with no input), prepend the user's message
     * to the first page of `{ fileId, limit }`, set loading and return the
     * flattened snapshot. The updater throws on an empty page list; then
     * nothing is written and loading is not set.
     */
    method OnMutate(text: string, id: string, now: string) returns (ctx: Result<MutationContext, UpdaterError>)
      modifies this, utils
      ensures backupMessage == text && message == "" && notices == old(notices)
      ensures ctx.Err? <==> InsertThrows(PagedAt(old(utils.entries), InfiniteKey(PagesInput())))
      ensures ctx.Err? ==>
        && isLoading == old(isLoading)
        && utils.entries == old(utils.entries)
        && utils.log == old(utils.log) + [Cancelled]
      ensures ctx.Ok? ==>
        && isLoading
        && ctx.value == MutationContext(RollbackContext(PagedAt(old(utils.entries), InfiniteKey(NoInput))))
        && InfiniteKey(PagesInput()) in utils.entries
        && utils.entries == old(utils.entries)[InfiniteKey(PagesInput()) := utils.entries[InfiniteKey(PagesInput())]]
        && utils.log == old(utils.log) + [Cancelled, Wrote(InfiniteKey(PagesInput()))]
      ensures ctx.Ok? ==>
        var after := PagedAt(utils.entries, InfiniteKey(PagesInput()));
        && after.Some?
        && OptimisticOutcome(PagedAt(old(utils.entries), InfiniteKey(PagesInput())), after.value, UserMessage(text, id, now))
    {
      backupMessage := text;
      message := "";
      utils.Cancel();
      var previousMessages := utils.GetInfiniteData(NoInput);
      var inserted := OptimisticInsert(utils.GetInfiniteData(PagesInput()), text, id, now);
      if inserted.Err? {
        return Err(inserted.error);
      }
      utils.SetInfiniteData(PagesInput(), inserted.value);
      isLoading := true;
      ctx := Ok(MutationContext(RollbackContext(previousMessages)));
    }

    /**
     * `onSuccess`: clear loading; with no body show a notice and stop;
     * otherwise read until the reader reports `done`, appending each decoded
     * chunk to the accumulator and upserting the assistant message after
     * every read, the last one included.
     */
    method OnSuccess(body: Option<seq<ReadResult>>, now: string)
      requires body.Some? ==> Terminates(body.value)
      modifies this, utils
      ensures !isLoading && message == old(message) && backupMessage == old(backupMessage)
      ensures body.None? ==>
        && notices == old(notices) + [NoStreamNotice]
        && utils.entries == old(utils.entries) && utils.log == old(utils.log)
      ensures body.Some? ==>
        && notices == old(notices)
        && utils.entries == old(utils.entries)[InfiniteKey(PagesInput()) :=
             Paged(UpsertAi(PagedAt(old(utils.entries), InfiniteKey(PagesInput())), StreamedText(body.value), now))]
        && utils.log == old(utils.log) + Writes(InfiniteKey(PagesInput()), FirstDone(body.value) + 1)
    {
      isLoading := false;
      if body.None? {
        notices := notices + [NoStreamNotice];
        return;
      }
      var results := body.value;
      ghost var before := PagedAt(utils.entries, InfiniteKey(PagesInput()));
      ghost var last := FirstDone(results);
      var done := false;
      var accumulatedResponse := "";
      var i := 0;
      while !done
        invariant 0 <= i <= last + 1
        invariant done <==> i == last + 1
        invariant accumulatedResponse == Texts(results[..i])
        invariant i == 0 ==> utils.entries == old(utils.entries)
        invariant i > 0 ==> utils.entries == old(utils.entries)[InfiniteKey(PagesInput()) :=
                               Paged(UpsertAi(before, accumulatedResponse, now))]
        invariant utils.log == old(utils.log) + Writes(InfiniteKey(PagesInput()), i)
        modifies utils
        decreases last + 1 - i
      {
        var chunk := results[i];
        DoneStep(results, i);
        done := chunk.done;
        ghost var previous := accumulatedResponse;
        TextsStep(results, i);
        accumulatedResponse := accumulatedResponse + chunk.text;
        if i > 0 {
          UpsertLastWriteWins(before, previous, accumulatedResponse, now);
        }
        UpsertAiResponse(accumulatedResponse, now);
        WritesStep(InfiniteKey(PagesInput()), i);
        i := i + 1;
      }
    }

    /** One `setInfiniteData` call of the reader loop: the `{ fileId, limit }` entry takes the upsert of the accumulated text. */
    method UpsertAiResponse(accumulated: string, now: string)
      modifies utils
      ensures utils.entries == old(utils.entries)[InfiniteKey(PagesInput()) :=
                Paged(UpsertAi(PagedAt(old(utils.entries), InfiniteKey(PagesInput())), accumulated, now))]
      ensures utils.log == old(utils.log) + [Wrote(InfiniteKey(PagesInput()))]
    {
      var cached := utils.GetInfiniteData(PagesInput());
      utils.SetInfiniteData(PagesInput(), UpsertAi(cached, accumulated, now));
    }

    /** `onError`: restore the draft and write the context's messages to the plain `{ fileId }` query. */
    method OnError(ctx: Option<MutationContext>)
      modifies this, utils
      ensures message == backupMessage && backupMessage == old(backupMessage)
      ensures isLoading == old(isLoading) && notices == old(notices)
      ensures utils.entries == old(utils.entries)[PlainKey(FileInput(fileId)) :=
                Plain(if ctx.Some? then ctx.value.previousMessages else [])]
      ensures utils.log == old(utils.log) + [Wrote(PlainKey(FileInput(fileId)))]
    {
      message := backupMessage;
      utils.SetData(FileInput(fileId), if ctx.Some? then ctx.value.previousMessages else []);
    }

    /** `onSettled`: clear loading and invalidate `{ fileId }`, on every path. */
    method OnSettled()
      modifies this, utils
      ensures !isLoading
      ensures message == old(message) && backupMessage == old(backupMessage) && notices == old(notices)
      ensures utils.entries == old(utils.entries)
      ensures utils.log == old(utils.log) + [Invalidated(FileInput(fileId))]
    {
      isLoading := false;
      utils.Invalidate(FileInput(fileId));
    }

    /**
     * `addMessage`: send the current draft. `onMutate` runs first; when it
     * throws, the request is never made and `onError` gets no context; when the
     * request throws, `onError` gets the context; otherwise `onSuccess` reads
     * the stream. `onSettled` ends every path. The user's message is stamped
     * with `sentAt` in `onMutate`, the reply with `repliedAt` in `onSuccess`.
     *
     * The rollback is written to the plain `{ fileId }` key, so after a failed
     * request the `{ fileId, limit }` pages still hold the optimistic message.
     */
    method AddMessage(reply: Reply, id: string, sentAt: string, repliedAt: string)
      requires reply.Delivered? && reply.body.Some? ==> Terminates(reply.body.value)
      modifies this, utils
      ensures !isLoading && backupMessage == old(message)
      ensures InsertThrows(PagedAt(old(utils.entries), InfiniteKey(PagesInput()))) ==>
        && message == old(message) && notices == old(notices)
        && utils.entries == old(utils.entries)[PlainKey(FileInput(fileId)) := Plain([])]
        && utils.log == old(utils.log) + [Cancelled, Wrote(PlainKey(FileInput(fileId))), Invalidated(FileInput(fileId))]
      ensures !InsertThrows(PagedAt(old(utils.entries), InfiniteKey(PagesInput()))) && reply.SendFailed? ==>
        && message == old(message) && notices == old(notices)
        && (exists inserted ::
              && OptimisticOutcome(PagedAt(old(utils.entries), InfiniteKey(PagesInput())), inserted, UserMessage(old(message), id, sentAt))
              && utils.entries == old(utils.entries)[InfiniteKey(PagesInput()) := Paged(inserted)]
                   [PlainKey(FileInput(fileId)) := Plain(RollbackContext(PagedAt(old(utils.entries), InfiniteKey(NoInput))))])
        && utils.log == old(utils.log) + [Cancelled, Wrote(InfiniteKey(PagesInput())), Wrote(PlainKey(FileInput(fileId))),
                                          Invalidated(FileInput(fileId))]
      ensures !InsertThrows(PagedAt(old(utils.entries), InfiniteKey(PagesInput()))) && reply.Delivered? ==>
        && message == ""
        && notices == old(notices) + (if reply.body.None? then [NoStreamNotice] else [])
        && (exists inserted ::
              && OptimisticOutcome(PagedAt(old(utils.entries), InfiniteKey(PagesInput())), inserted, UserMessage(old(message), id, sentAt))
              && utils.entries == old(utils.entries)[InfiniteKey(PagesInput()) :=
                   Paged(if reply.body.Some? then UpsertAi(Some(inserted), StreamedText(reply.body.value), repliedAt) else inserted)])
        && utils.log == old(utils.log) + [Cancelled, Wrote(InfiniteKey(PagesInput()))]
                        + (if reply.body.Some? then Writes(InfiniteKey(PagesInput()), FirstDone(reply.body.value) + 1) else [])
                        + [Invalidated(FileInput(fileId))]
      ensures
        var before := PagedAt(old(utils.entries), InfiniteKey(PagesInput()));
        && id != AiResponseId && reply.Delivered? && reply.body.Some? && before.Some? && before.value.pages != []
        ==>
        var after := PagedAt(utils.entries, InfiniteKey(PagesInput()));
        && after.Some?
        && |after.value.pages| == |before.value.pages|
        && after.value.pages[1..] == before.value.pages[1..]
        && (!AiResponseCreated(before.value.pages) ==>
              after.value.pages[0].messages ==
                [AiMessage(StreamedText(reply.body.value), repliedAt), UserMessage(old(message), id, sentAt)] + before.value.pages[0].messages)
        && (AiResponseCreated(before.value.pages) ==>
              after.value.pages[0].messages ==
                [UserMessage(old(message), id, sentAt)] + OverwriteAiResponses(before.value.pages[0].messages, StreamedText(reply.body.value)))
    {
      ghost var before := PagedAt(utils.entries, InfiniteKey(PagesInput()));
      ghost var text := message;
      var ctx := OnMutate(message, id, sentAt);
      if ctx.Err? {
        OnError(None);
      } else if reply.SendFailed? {
        ghost var inserted := PagedAt(utils.entries, InfiniteKey(PagesInput())).value;
        OnError(Some(ctx.value));
        assert OptimisticOutcome(before, inserted, UserMessage(text, id, sentAt));
      } else {
        ghost var inserted := PagedAt(utils.entries, InfiniteKey(PagesInput())).value;
        if id != AiResponseId && reply.body.Some? && before.Some? && before.value.pages != [] {
          if AiResponseCreated(before.value.pages) {
            InsertThenStreamOverReply(before.value, inserted, UserMessage(text, id, sentAt), StreamedText(reply.body.value), repliedAt);
          } else {
            InsertThenStream(before.value, inserted, UserMessage(text, id, sentAt), StreamedText(reply.body.value), repliedAt);
          }
        }
        OnSuccess(reply.body, repliedAt);
        assert OptimisticOutcome(before, inserted, UserMessage(text, id, sentAt));
      }
      OnSettled();
    }
  }
}

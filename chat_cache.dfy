/**
 * The paginated message cache of one document's chat and the three
 * transforms the chat provider applies to it: the optimistic insert of the
 * user's message, the streaming upsert of the assistant's reply, and the
 * flattening of all pages into the rollback context.
 */
module ChatCache {
  import opened Common

  /** The reserved id of the assistant message being streamed. */
  const AiResponseId: string := "ai-response"

  datatype Message = Message(id: string, text: string, createdAt: string, isUserMessage: bool)

  /**
   * One page of the infinite query; `nextCursor` stands for the page's fields
   * other than `messages`, which the updaters carry over unchanged.
   */
  datatype Page = Page(messages: seq<Message>, nextCursor: Option<string>)

  /** The cached value of an infinite query: newest page first. */
  datatype InfiniteData = InfiniteData(pages: seq<Page>, pageParams: seq<Option<string>>)

  /** What both updaters return when the cache holds nothing yet. */
  const EmptyData: InfiniteData := InfiniteData([], [])

  /** `newPages[0]!.messages` on an empty page list throws a TypeError. */
  datatype UpdaterError = FirstPageUndefined

  // ------------------------------------------------------------ rollback snapshot

  /** `pages.flatMap((page) => page.messages)` */
  function FlatPages(pages: seq<Page>): seq<Message> {
    if pages == [] then [] else pages[0].messages + FlatPages(pages[1..])
  }

  /** `previousMessages?.pages.flatMap(...) ?? []`: the rollback context of a submit. */
  function RollbackContext(previous: Option<InfiniteData>): seq<Message> {
    if previous.None? then [] else FlatPages(previous.value.pages)
  }

  /** Where page `k`'s messages start in the flattened list. */
  function PageOffset(pages: seq<Page>, k: nat): nat
    requires k <= |pages|
  {
    |FlatPages(pages[..k])|
  }

  lemma {:induction false} FlatPagesAppend(a: seq<Page>, b: seq<Page>)
    ensures FlatPages(a + b) == FlatPages(a) + FlatPages(b)
  {
    if a != [] {
      assert (a + b)[1..] == a[1..] + b;
      FlatPagesAppend(a[1..], b);
    } else {
      assert a + b == b;
    }
  }

  /** Flattening keeps page order: message `i` of page `k` sits at the page's offset plus `i`. */
  lemma FlatPagesAt(pages: seq<Page>, k: nat, i: nat)
    requires k < |pages| && i < |pages[k].messages|
    ensures PageOffset(pages, k) + i < |FlatPages(pages)|
    ensures FlatPages(pages)[PageOffset(pages, k) + i] == pages[k].messages[i]
  {
    assert pages == pages[..k] + pages[k..];
    FlatPagesAppend(pages[..k], pages[k..]);
  }

  /** A message is in the flattened list exactly when some page holds it. */
  lemma {:induction false} FlatPagesHas(pages: seq<Page>, m: Message)
    ensures m in FlatPages(pages) <==> exists k :: 0 <= k < |pages| && m in pages[k].messages
  {
    if pages != [] {
      FlatPagesHas(pages[1..], m);
      if m in FlatPages(pages[1..]) {
        var k :| 0 <= k < |pages[1..]| && m in pages[1..][k].messages;
        assert m in pages[k + 1].messages;
      }
      if exists k :: 0 <= k < |pages| && m in pages[k].messages {
        var k :| 0 <= k < |pages| && m in pages[k].messages;
        if k > 0 {
          assert m in pages[1..][k - 1].messages;
        }
      }
    }
  }

  /** The rollback context is empty when nothing was cached, and otherwise lists every page's messages. */
  lemma RollbackContextContents(previous: Option<InfiniteData>, m: Message)
    ensures previous.None? ==> RollbackContext(previous) == []
    ensures previous.Some? ==>
      (m in RollbackContext(previous) <==>
        exists k :: 0 <= k < |previous.value.pages| && m in previous.value.pages[k].messages)
  {
    if previous.Some? {
      FlatPagesHas(previous.value.pages, m);
    }
  }

  /** Replacing the first page's messages replaces the head of the flattened list. */
  lemma FlatPagesNewFirst(pages: seq<Page>, msgs: seq<Message>)
    requires pages != []
    ensures FlatPages(pages[0 := pages[0].(messages := msgs)]) == msgs + FlatPages(pages[1..])
  {
    var ps := pages[0 := pages[0].(messages := msgs)];
    assert ps[1..] == pages[1..];
  }

  // ------------------------------------------------------------ optimistic insert

  /** The message the submit handler synthesizes for the user's text. */
  function UserMessage(text: string, id: string, now: string): Message {
    Message(id, text, now, true)
  }

  /**
   * `after` is `before` with `m` prepended to the first page's messages: the
   * page count, the first page's other fields, every other page and the page
   * params are unchanged.
   */
  predicate InsertedAtFront(before: InfiniteData, after: InfiniteData, m: Message) {
    && before.pages != []
    && |after.pages| == |before.pages|
    && after.pages[0].messages == [m] + before.pages[0].messages
    && after.pages[0].nextCursor == before.pages[0].nextCursor
    && after.pages[1..] == before.pages[1..]
    && after.pageParams == before.pageParams
  }

  /**
   * `after` is what the `onMutate` updater returns for the cached value
   * `before` when it does not throw: empty pages when nothing was cached,
   * otherwise `m` inserted at the front.
   */
  predicate OptimisticOutcome(before: Option<InfiniteData>, after: InfiniteData, m: Message) {
    && (before.None? ==> after == EmptyData)
    && (before.Some? ==> InsertedAtFront(before.value, after, m))
  }

  /** Inserting at the front of the first page puts the message at the front of the flattened list. */
  lemma InsertedAtFrontFlattens(before: InfiniteData, after: InfiniteData, m: Message)
    requires InsertedAtFront(before, after, m)
    ensures FlatPages(after.pages) == [m] + FlatPages(before.pages)
  {
    assert after.pages == before.pages[0 := after.pages[0]];
    FlatPagesNewFirst(before.pages, after.pages[0].messages);
  }

  /**
   * The `onMutate` updater: copy the page list, prepend the user's message to
   * the messages of its first page and write that page back as the first
   * element. With no cached value it returns empty pages; with an empty page
   * list the first page is undefined and reading its messages throws.
   */
  method OptimisticInsert(oldData: Option<InfiniteData>, text: string, id: string, now: string)
    returns (r: Result<InfiniteData, UpdaterError>)
    ensures oldData.None? ==> r == Ok(EmptyData)
    ensures oldData.Some? && oldData.value.pages == [] ==> r == Err(FirstPageUndefined)
    ensures oldData.Some? && oldData.value.pages != [] ==>
      r.Ok? && InsertedAtFront(oldData.value, r.value, UserMessage(text, id, now))
  {
    if oldData.None? {
      return Ok(EmptyData);
    }
    var newPages := oldData.value.pages;
    if |newPages| == 0 {
      return Err(FirstPageUndefined);
    }
    var latestPage := newPages[0];
    latestPage := latestPage.(messages := [UserMessage(text, id, now)] + latestPage.messages);
    newPages := newPages[0 := latestPage];
    r := Ok(oldData.value.(pages := newPages));
  }

  // ------------------------------------------------------------ streaming upsert

  predicate IsAiResponse(m: Message) {
    m.id == AiResponseId
  }

  /** `messages.some((message) => message.id === 'ai-response')` */
  predicate HasAiResponse(msgs: seq<Message>) {
    exists m :: m in msgs && IsAiResponse(m)
  }

  /** `isAIResponseCreated`: some page, not necessarily the first, holds the sentinel. */
  predicate AiResponseCreated(pages: seq<Page>) {
    exists p :: p in pages && HasAiResponse(p.messages)
  }

  /** The assistant message inserted when none exists yet. */
  function AiMessage(accumulated: string, now: string): Message {
    Message(AiResponseId, accumulated, now, false)
  }

  /** `messages.map(...)`: every sentinel message takes the accumulated text. */
  function OverwriteAiResponses(msgs: seq<Message>, accumulated: string): seq<Message> {
    seq(|msgs|, i requires 0 <= i < |msgs| =>
      if IsAiResponse(msgs[i]) then msgs[i].(text := accumulated) else msgs[i])
  }

  /** The new messages of the first page. */
  function UpsertFirstPage(pages: seq<Page>, first: Page, accumulated: string, now: string): seq<Message> {
    if AiResponseCreated(pages) then OverwriteAiResponses(first.messages, accumulated)
    else [AiMessage(accumulated, now)] + first.messages
  }

  /**
   * The `onSuccess` updater run after every read: the first page is rebuilt
   * (insert the assistant message or overwrite its text), every other page is
   * kept. The pages are distinct objects, so `page === oldData.pages[0]`
   * holds exactly at index 0; mapping an empty page list gives it back.
   */
  function UpsertAi(oldData: Option<InfiniteData>, accumulated: string, now: string): InfiniteData {
    match oldData
    case None => EmptyData
    case Some(d) =>
      if d.pages == [] then d
      else d.(pages := d.pages[0 := d.pages[0].(messages := UpsertFirstPage(d.pages, d.pages[0], accumulated, now))])
  }

  /** Number of sentinel messages in a list. */
  function CountAi(msgs: seq<Message>): nat {
    if msgs == [] then 0 else (if IsAiResponse(msgs[0]) then 1 else 0) + CountAi(msgs[1..])
  }

  /** With no cached value the upsert yields empty pages; otherwise the page list keeps its length and params. */
  lemma UpsertShape(oldData: Option<InfiniteData>, accumulated: string, now: string)
    ensures oldData.None? ==> UpsertAi(oldData, accumulated, now) == EmptyData
    ensures oldData.Some? ==>
      && |UpsertAi(oldData, accumulated, now).pages| == |oldData.value.pages|
      && UpsertAi(oldData, accumulated, now).pageParams == oldData.value.pageParams
      && (forall k :: 1 <= k < |oldData.value.pages| ==> UpsertAi(oldData, accumulated, now).pages[k] == oldData.value.pages[k])
  {
  }

  /**
   * First chunk: when no page holds the sentinel, the first page gains exactly
   * one message at its front, the assistant message with the accumulated text;
   * nothing else changes.
   */
  lemma UpsertInsertsWhenAbsent(d: InfiniteData, accumulated: string, now: string)
    requires d.pages != [] && !AiResponseCreated(d.pages)
    ensures var r := UpsertAi(Some(d), accumulated, now);
      && |r.pages| == |d.pages|
      && r.pages[0] == d.pages[0].(messages := [AiMessage(accumulated, now)] + d.pages[0].messages)
      && r.pages[1..] == d.pages[1..]
      && r.pageParams == d.pageParams
      && FlatPages(r.pages) == [AiMessage(accumulated, now)] + FlatPages(d.pages)
  {
    var r := UpsertAi(Some(d), accumulated, now);
    assert r.pages == d.pages[0 := r.pages[0]];
    FlatPagesNewFirst(d.pages, r.pages[0].messages);
  }

  /**
   * Later chunks: when some page holds the sentinel, every page keeps its
   * length, each sentinel message of the first page takes the accumulated text
   * with its other fields unchanged, and every other message and page is kept.
   */
  lemma UpsertOverwritesWhenPresent(d: InfiniteData, accumulated: string, now: string)
    requires AiResponseCreated(d.pages)
    ensures var r := UpsertAi(Some(d), accumulated, now);
      && |r.pages| == |d.pages|
      && r.pageParams == d.pageParams
      && (forall k :: 0 <= k < |d.pages| ==>
            |r.pages[k].messages| == |d.pages[k].messages| && r.pages[k].nextCursor == d.pages[k].nextCursor)
      && (forall k :: 1 <= k < |d.pages| ==> r.pages[k] == d.pages[k])
      && (forall i :: 0 <= i < |d.pages[0].messages| ==>
            r.pages[0].messages[i] ==
              if IsAiResponse(d.pages[0].messages[i]) then d.pages[0].messages[i].(text := accumulated)
              else d.pages[0].messages[i])
  {
  }

  /**
   * The two conditions disagree (`some` over all pages, `=== pages[0]` for the
   * rewrite): a sentinel found only on a later page makes the upsert change nothing.
   */
  lemma UpsertIgnoresLaterPageSentinel(d: InfiniteData, accumulated: string, now: string)
    requires d.pages != [] && !HasAiResponse(d.pages[0].messages) && AiResponseCreated(d.pages)
    ensures UpsertAi(Some(d), accumulated, now) == d
  {
    var r := UpsertAi(Some(d), accumulated, now);
    assert r.pages[0].messages == d.pages[0].messages by {
      forall i | 0 <= i < |d.pages[0].messages|
        ensures r.pages[0].messages[i] == d.pages[0].messages[i]
      {
        assert d.pages[0].messages[i] in d.pages[0].messages;
      }
    }
    assert r.pages == d.pages;
  }

  lemma OverwriteWithoutSentinel(msgs: seq<Message>, accumulated: string)
    requires !HasAiResponse(msgs)
    ensures OverwriteAiResponses(msgs, accumulated) == msgs
  {
    forall i | 0 <= i < |msgs|
      ensures OverwriteAiResponses(msgs, accumulated)[i] == msgs[i]
    {
      assert msgs[i] in msgs;
    }
  }

  /** After an upsert on a non-empty page list, the sentinel exists. */
  lemma UpsertCreatesSentinel(d: InfiniteData, accumulated: string, now: string)
    requires d.pages != []
    ensures AiResponseCreated(UpsertAi(Some(d), accumulated, now).pages)
  {
    var r := UpsertAi(Some(d), accumulated, now);
    if AiResponseCreated(d.pages) {
      var p :| p in d.pages && HasAiResponse(p.messages);
      var k :| 0 <= k < |d.pages| && d.pages[k] == p;
      var m :| m in p.messages && IsAiResponse(m);
      var i :| 0 <= i < |p.messages| && p.messages[i] == m;
      if k == 0 {
        assert IsAiResponse(r.pages[0].messages[i]);
        assert r.pages[0].messages[i] in r.pages[0].messages;
        assert r.pages[0] in r.pages;
      } else {
        assert r.pages[k] == p;
        assert r.pages[k] in r.pages;
      }
    } else {
      assert r.pages[0].messages[0] == AiMessage(accumulated, now);
      assert r.pages[0].messages[0] in r.pages[0].messages;
      assert r.pages[0] in r.pages;
    }
  }

  /**
   * The upsert is last-write-wins on the accumulator: a second upsert undoes
   * nothing of the first but its text, whatever the cache held before.
   */
  lemma UpsertLastWriteWins(oldData: Option<InfiniteData>, first: string, second: string, now: string)
    ensures UpsertAi(Some(UpsertAi(oldData, first, now)), second, now) == UpsertAi(oldData, second, now)
  {
    if oldData.Some? && oldData.value.pages != [] {
      var d := oldData.value;
      var once := UpsertAi(oldData, first, now);
      var twice := UpsertAi(Some(once), second, now);
      var direct := UpsertAi(oldData, second, now);
      if AiResponseCreated(d.pages) {
        UpsertCreatesSentinel(d, first, now);
        assert twice.pages[0].messages == direct.pages[0].messages;
      } else {
        UpsertCreatesSentinel(d, first, now);
        var p0 := d.pages[0];
        assert !HasAiResponse(p0.messages) by {
          assert p0 in d.pages;
        }
        OverwriteWithoutSentinel(p0.messages, second);
        var msgs := once.pages[0].messages;
        assert msgs == [AiMessage(first, now)] + p0.messages;
        assert OverwriteAiResponses(msgs, second) == [AiMessage(second, now)] + p0.messages by {
          assert OverwriteAiResponses(msgs, second)[1..] == OverwriteAiResponses(p0.messages, second);
        }
      }
      assert twice.pages == direct.pages;
    }
  }

  /** Duplicate delivery of the same accumulator leaves the cache as one delivery did. */
  lemma UpsertIdempotent(oldData: Option<InfiniteData>, accumulated: string, now: string)
    ensures UpsertAi(Some(UpsertAi(oldData, accumulated, now)), accumulated, now) == UpsertAi(oldData, accumulated, now)
  {
    UpsertLastWriteWins(oldData, accumulated, accumulated, now);
  }

  lemma {:induction false} CountAiAppend(a: seq<Message>, b: seq<Message>)
    ensures CountAi(a + b) == CountAi(a) + CountAi(b)
  {
    if a != [] {
      assert (a + b)[1..] == a[1..] + b;
      CountAiAppend(a[1..], b);
    } else {
      assert a + b == b;
    }
  }

  lemma {:induction false} CountAiNone(msgs: seq<Message>)
    requires !HasAiResponse(msgs)
    ensures CountAi(msgs) == 0
  {
    if msgs != [] {
      assert msgs[0] in msgs;
      CountAiNone(msgs[1..]);
    }
  }

  lemma {:induction false} CountAiNoPages(pages: seq<Page>)
    requires !AiResponseCreated(pages)
    ensures CountAi(FlatPages(pages)) == 0
  {
    if pages != [] {
      assert pages[0] in pages;
      CountAiNone(pages[0].messages);
      CountAiNoPages(pages[1..]);
      CountAiAppend(pages[0].messages, FlatPages(pages[1..]));
    }
  }

  /** Inserting a message that is not the sentinel does not create one. */
  lemma InsertedAtFrontKeepsNoSentinel(before: InfiniteData, after: InfiniteData, m: Message)
    requires InsertedAtFront(before, after, m) && !IsAiResponse(m) && !AiResponseCreated(before.pages)
    ensures !AiResponseCreated(after.pages)
  {
    forall p | p in after.pages
      ensures !HasAiResponse(p.messages)
    {
      var k :| 0 <= k < |after.pages| && after.pages[k] == p;
      if k == 0 {
        assert before.pages[0] in before.pages;
        forall x | x in p.messages
          ensures !IsAiResponse(x)
        {
          if x != m {
            assert x in before.pages[0].messages;
          }
        }
      } else {
        assert p == before.pages[1..][k - 1];
        assert p in before.pages;
      }
    }
  }

  /**
   * A submit followed by its streamed reply: the optimistic insert of a user
   * message and the upsert of the reply leave the first page as the reply, then
   * the user's message, then the page's old messages; other pages are kept.
   */
  lemma InsertThenStream(before: InfiniteData, inserted: InfiniteData, m: Message, accumulated: string, now: string)
    requires InsertedAtFront(before, inserted, m) && !IsAiResponse(m) && !AiResponseCreated(before.pages)
    ensures var r := UpsertAi(Some(inserted), accumulated, now);
      && |r.pages| == |before.pages|
      && r.pages[0].messages == [AiMessage(accumulated, now), m] + before.pages[0].messages
      && r.pages[1..] == before.pages[1..]
  {
    InsertedAtFrontKeepsNoSentinel(before, inserted, m);
    UpsertInsertsWhenAbsent(inserted, accumulated, now);
  }

  /**
   * A reply streamed into a conversation that held no assistant sentinel
   * leaves exactly one sentinel message in the whole cache: the first message
   * of the first page, carrying the latest accumulated text.
   */
  lemma StreamLeavesOneAiResponse(d: InfiniteData, accumulated: string, now: string)
    requires d.pages != [] && !AiResponseCreated(d.pages)
    ensures var r := UpsertAi(Some(d), accumulated, now);
      && r.pages[0].messages[0] == AiMessage(accumulated, now)
      && CountAi(FlatPages(r.pages)) == 1
  {
    UpsertInsertsWhenAbsent(d, accumulated, now);
    CountAiNoPages(d.pages);
    CountAiAppend([AiMessage(accumulated, now)], FlatPages(d.pages));
  }

  /**
   * A second submit before the refetch has replaced the previous reply: the
   * sentinel is still cached, so the upsert does not insert a new assistant
   * message but overwrites the old one's text in place. The first page ends
   * as the user's message followed by the old messages, each old sentinel now
   * carrying the new reply; other pages are kept.
   */
  lemma InsertThenStreamOverReply(before: InfiniteData, inserted: InfiniteData, m: Message, accumulated: string, now: string)
    requires InsertedAtFront(before, inserted, m) && !IsAiResponse(m) && AiResponseCreated(before.pages)
    ensures var r := UpsertAi(Some(inserted), accumulated, now);
      && |r.pages| == |before.pages|
      && r.pages[0].messages == [m] + OverwriteAiResponses(before.pages[0].messages, accumulated)
      && r.pages[1..] == before.pages[1..]
      && r.pageParams == before.pageParams
  {
    var p :| p in before.pages && HasAiResponse(p.messages);
    var k :| 0 <= k < |before.pages| && before.pages[k] == p;
    if k == 0 {
      var x :| x in p.messages && IsAiResponse(x);
      assert x in inserted.pages[0].messages;
      assert inserted.pages[0] in inserted.pages;
    } else {
      assert inserted.pages[k] == inserted.pages[1..][k - 1] == p;
      assert inserted.pages[k] in inserted.pages;
    }
    assert AiResponseCreated(inserted.pages);
    var r := UpsertAi(Some(inserted), accumulated, now);
    var old0 := before.pages[0].messages;
    assert r.pages[0].messages == OverwriteAiResponses([m] + old0, accumulated);
    assert OverwriteAiResponses([m] + old0, accumulated) == [m] + OverwriteAiResponses(old0, accumulated);
  }
}

/**
 * The query cache behind `utils.getFileMessages`: entries keyed by the
 * procedure's input and by whether the query is the infinite one. Lookups
 * and writes use the exact key; `cancel` and `invalidate` only schedule
 * network work, so the model records them in a ghost event log.
 */
module TrpcCache {
  import opened Common
  import opened ChatCache

  /** The input a cache call passes: none, `{ fileId }`, or `{ fileId, limit }`. */
  datatype QueryInput = NoInput | FileInput(fileId: string) | FileLimitInput(fileId: string, limit: int)

  datatype QueryKey = QueryKey(input: QueryInput, infinite: bool)

  /** An infinite query holds pages; the plain query holds `{ messages }`. */
  datatype CacheEntry = Paged(data: InfiniteData) | Plain(messages: seq<Message>)

  datatype CacheEvent = Cancelled | Wrote(key: QueryKey) | Invalidated(input: QueryInput)

  function InfiniteKey(input: QueryInput): QueryKey {
    QueryKey(input, true)
  }

  function PlainKey(input: QueryInput): QueryKey {
    QueryKey(input, false)
  }

  /** The paged value cached under `key`, if any. */
  function PagedAt(entries: map<QueryKey, CacheEntry>, key: QueryKey): Option<InfiniteData> {
    if key in entries && entries[key].Paged? then Some(entries[key].data) else None
  }

  class ProcedureCache {
    var entries: map<QueryKey, CacheEntry>
    ghost var log: seq<CacheEvent>

    constructor ()
      ensures entries == map[] && log == []
    {
      entries := map[];
      log := [];
    }

    /** `getInfiniteData(input)` */
    function GetInfiniteData(input: QueryInput): Option<InfiniteData>
      reads this
    {
      PagedAt(entries, InfiniteKey(input))
    }

    /** `cancel()`: stops in-flight fetches; the cached values stay. */
    method Cancel()
      modifies this
      ensures entries == old(entries) && log == old(log) + [Cancelled]
    {
      log := log + [Cancelled];
    }

    /** `setInfiniteData(input, updater)` once the updater has returned `data`. */
    method SetInfiniteData(input: QueryInput, data: InfiniteData)
      modifies this
      ensures entries == old(entries)[InfiniteKey(input) := Paged(data)]
      ensures log == old(log) + [Wrote(InfiniteKey(input))]
    {
      entries := entries[InfiniteKey(input) := Paged(data)];
      log := log + [Wrote(InfiniteKey(input))];
    }

    /** `setData(input, { messages })` */
    method SetData(input: QueryInput, messages: seq<Message>)
      modifies this
      ensures entries == old(entries)[PlainKey(input) := Plain(messages)]
      ensures log == old(log) + [Wrote(PlainKey(input))]
    {
      entries := entries[PlainKey(input) := Plain(messages)];
      log := log + [Wrote(PlainKey(input))];
    }

    /** `invalidate(input)`: marks matching queries stale so they refetch; the refetch itself is not modelled. */
    method Invalidate(input: QueryInput)
      modifies this
      ensures entries == old(entries) && log == old(log) + [Invalidated(input)]
    {
      log := log + [Invalidated(input)];
    }
  }
}

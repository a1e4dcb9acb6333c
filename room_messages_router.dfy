/** The room-messages data hooks of the client keyed by REST paths: the
    query key of `useFindAll`, the mutation key and optimistic append of
    `useCreateOne`, and `addRoomMessageToCache`. */
module RoomMessagesRouter {
  import opened Common
  import opened ClientTypes
  import opened MessageCache

  /** The `useFindAll` key for a room and an already serialised query
      string; no key (no request) for a blank room id. */
  function FindAllKey(roomId: string, query: string): (key: Option<string>)
    ensures key.None? <==> IsBlank(roomId)
    ensures key.Some? ==> RoomPath(roomId) + "?" <= key.value
  {
    TrimEmptyIffBlank(roomId);
    if roomId != "" && Trim(roomId) != "" then Some(RoomPath(roomId) + "?" + query) else None
  }

  /** The `useCreateOne` key: the room's messages path, none for a blank id. */
  function CreateOneKey(roomId: string): (key: Option<string>)
    ensures key.None? <==> IsBlank(roomId)
    ensures key.Some? ==> key.value == RoomPath(roomId)
  {
    TrimEmptyIffBlank(roomId);
    if roomId != "" && Trim(roomId) != "" then Some(RoomPath(roomId)) else None
  }

  /** The updates of `addRoomMessageToCache` and of the optimistic append
      write the bare messages path, while the list `useFindAll` reads lives
      under that path followed by `?` and the query: those writes never
      reach the list the room view shows. */
  lemma FindAllKeyIsNotTheUpdatedKey(roomId: string, query: string)
    requires !IsBlank(roomId)
    ensures FindAllKey(roomId, query).Some?
    ensures FindAllKey(roomId, query).value != RoomPath(roomId)
    ensures FindAllKey(roomId, query).value != CreateOneKey(roomId).value
  {
    assert |FindAllKey(roomId, query).value| > |RoomPath(roomId)|;
  }

  /** `addRoomMessageToCache`: nothing without a room id, otherwise a
      de-duplicating update of the room's messages path. */
  function AddRoomMessageToCache(cache: Cache, m: ClientMessage, roomId: Option<string>): (r: Cache)
    ensures !Truthy(roomId) ==> r == cache
    ensures Truthy(roomId) ==> RoomPath(roomId.value) in r && HasMessage(r[RoomPath(roomId.value)], m.id)
    ensures Truthy(roomId) ==>
              Current(cache, RoomPath(roomId.value)) <= r[RoomPath(roomId.value)]
              && |r[RoomPath(roomId.value)]| <= |Current(cache, RoomPath(roomId.value))| + 1
    ensures forall k :: k in cache && (Truthy(roomId) ==> k != RoomPath(roomId.value)) ==> k in r && r[k] == cache[k]
    ensures CacheUnique(cache) ==> CacheUnique(r)
  {
    if Truthy(roomId) then Update(cache, RoomPath(roomId.value), m) else cache
  }

  /** Adding the same message twice caches it once. */
  lemma AddRoomMessageToCacheIdempotent(cache: Cache, m: ClientMessage, roomId: Option<string>)
    ensures var once := AddRoomMessageToCache(cache, m, roomId);
            AddRoomMessageToCache(once, m, roomId) == once
  {
    if Truthy(roomId) {
      UpdateNoop(AddRoomMessageToCache(cache, m, roomId), RoomPath(roomId.value), m);
    }
  }

  /** A parsed response body as the optimistic updater sees it: nothing, a
      message object (which has no `data` field), or an object whose `data`
      field holds another value. */
  datatype Json = Undefined | Msg(message: ClientMessage) | Body(text: string, data: Json)

  /** `value?.data`. */
  function DataOf(value: Json): Json {
    match value
    case Body(_, d) => d
    case _ => Undefined
  }

  /** `response?.data?.data || response?.data || response`: the first of
      the three that is present. */
  function Picked(response: Json): (r: Json)
    ensures r == response || r == DataOf(response) || r == DataOf(DataOf(response))
    ensures DataOf(DataOf(response)) != Undefined ==> r == DataOf(DataOf(response))
    ensures DataOf(DataOf(response)) == Undefined && DataOf(response) != Undefined ==> r == DataOf(response)
  {
    if DataOf(DataOf(response)) != Undefined then DataOf(DataOf(response))
    else if DataOf(response) != Undefined then DataOf(response)
    else response
  }

  /** The optimistic updater of `useCreateOne`: exactly one value is
      appended to the cached list, without de-duplication. */
  function OptimisticAppend(current: seq<Json>, response: Json): (r: seq<Json>)
    ensures |r| == |current| + 1
    ensures r[..|current|] == current
    ensures r[|current|] == Picked(response)
  {
    current + [Picked(response)]
  }

  /** For a 201 body shaped like the one `createRoomMessage` answers
      (`{ message, data }`, with the created message in `data`), the request
      wrapper has already unwrapped the HTTP response, so the updater
      appends that message itself. */
  lemma CreatedMessageIsAppended(current: seq<Json>, text: string, m: ClientMessage)
    ensures OptimisticAppend(current, Body(text, Msg(m))) == current + [Msg(m)]
  {
  }
}

/**
 * The chat API route: the GET, POST and DELETE handlers over the key-value
 * store, and the key scheme they share. The channel registry is the set
 * under `channels`; the message log of channel `c` is the list under
 * `chat:c`, newest message first.
 *
 * Each handler is a method that issues the store commands one after the
 * other, as the route does, and is proved to produce the state and response
 * that a specification function (GetSpec, PostSpec, DeleteSpec) gives.
 */
module ChatRoute {
  import opened Wrappers
  import opened JsText
  import opened MessageCodec
  import opened KeyedStore

  const RegistryKey: string := "channels"
  const LogPrefix: string := "chat:"
  const DefaultChannel: string := "general"
  const ListChannelsAction: string := "list_channels"
  /** LTRIM key 0 99 keeps this many entries. */
  const MaxLogLength: nat := 100
  /** LRANGE key 0 19 reads this many entries. */
  const WindowSize: nat := 20

  const MissingFieldsError: string := "User and message fields are required."
  const ChannelNameError: string := "Channel name is required"
  const NoDataError: string := "No channel or message data found in request."

  predicate IsLogKey(key: string) {
    LogPrefix <= key
  }

  /** The key of a channel's message log. */
  function LogKey(channel: string): (key: string)
    ensures IsLogKey(key) && key[|LogPrefix|..] == channel
  {
    LogPrefix + channel
  }

  /** `getChannelName`: the `channel` query parameter, or `general` when it is absent or empty. */
  function ChannelName(channel: Option<string>): (name: string)
    ensures name != ""
  {
    if Truthy(channel) then channel.value else DefaultChannel
  }

  // ---------------------------------------------------------------------------
  // Requests and responses, already parsed out of the HTTP request

  /** GET: the `action` and `channel` query parameters. */
  datatype GetRequest = GetRequest(action: Option<string>, channel: Option<string>)

  /** POST: the `channel` query parameter and the fields of the JSON body. */
  datatype PostRequest = PostRequest(
    channelQuery: Option<string>,
    user: Option<string>,
    message: Option<string>,
    avatar: Option<string>,
    channelBody: Option<string>)

  /** DELETE: the `channel` query parameter. */
  datatype DeleteRequest = DeleteRequest(channel: Option<string>)

  /** A stored entry as GET returns it: the parsed message, or the raw text when it does not parse. */
  datatype Entry = Structured(msg: Message) | Raw(text: string)

  datatype Response =
    | ChannelList(names: set<string>)
    | Messages(entries: seq<Entry>)
    | Posted
    | Created(channel: string)
    | Deleted(channel: string)
    | BadRequest(error: string)
  {
    function Status(): nat {
      if BadRequest? then 400 else 200
    }
  }

  /** The store after a handler, and its response. */
  datatype Step = Step(db: Db, response: Response)

  // ---------------------------------------------------------------------------
  // The store as the route sees it

  /**
   * No command of the route can meet a key of the wrong kind: the registry
   * key never holds a list and no log key holds a set.
   */
  ghost predicate WellTyped(db: Db) {
    && db.Valid()
    && RegistryKey !in db.lists
    && (forall k :: k in db.sets ==> !IsLogKey(k))
  }

  /** Every list holds at most `MaxLogLength` entries. */
  ghost predicate LogsBounded(db: Db) {
    forall k :: k in db.lists ==> |db.lists[k]| <= MaxLogLength
  }

  function Registry(db: Db): set<string> {
    db.Members(RegistryKey)
  }

  function Log(db: Db, channel: string): seq<string> {
    db.Items(LogKey(channel))
  }

  /** The lenient decode of one entry: `JSON.parse`, falling back to the raw string. */
  function DecodeEntry(e: string): (r: Entry)
    ensures r.Structured? ==> e == Encode(r.msg)
    ensures r.Raw? ==> r.text == e && Decode(e) == None
  {
    match Decode(e)
    case Some(m) => DecodeCanonical(e, m); Structured(m)
    case None => Raw(e)
  }

  /** `messages.map(...)`: every entry decoded, none dropped, in the same order. */
  function DecodeAll(entries: seq<string>): (r: seq<Entry>)
    ensures |r| == |entries|
    ensures forall i :: 0 <= i < |entries| ==> r[i] == DecodeEntry(entries[i])
  {
    if entries == [] then [] else [DecodeEntry(entries[0])] + DecodeAll(entries[1..])
  }

  /** The message a valid POST stores: `avatar || null`, stamped with `now`. */
  function NewMessage(req: PostRequest, now: nat): (m: Message)
    requires Truthy(req.user) && Truthy(req.message)
    ensures m.user == req.user.value && m.message == req.message.value && m.timestamp == now
    ensures m.avatar == None <==> !Truthy(req.avatar)
    ensures Truthy(req.avatar) ==> m.avatar == req.avatar
  {
    Message(req.user.value, req.message.value, if Truthy(req.avatar) then req.avatar else None, now)
  }

  /** A log after a new entry: the entry in front of the old log, cut to `MaxLogLength` entries. */
  function PushTrim(log: seq<string>, entry: string): (after: seq<string>)
    ensures |after| == Min(MaxLogLength, |log| + 1)
    ensures after[0] == entry && after[1..] == log[..|after| - 1]
  {
    ([entry] + log)[..Min(MaxLogLength, |log| + 1)]
  }

  // ---------------------------------------------------------------------------
  // What each handler does

  function GetSpec(db: Db, req: GetRequest): Response {
    if req.action == Some(ListChannelsAction) then ChannelList(Registry(db))
    else Messages(DecodeAll(Range(Log(db, ChannelName(req.channel)), 0, WindowSize - 1)))
  }

  /** POST with a `?channel` query: append a message to that channel's log. */
  function PostMessageSpec(db: Db, channel: string, req: PostRequest, now: nat): Step {
    if !Truthy(req.user) || !Truthy(req.message) then Step(db, BadRequest(MissingFieldsError))
    else
      var key := LogKey(channel);
      Step(db.(lists := db.lists[key := PushTrim(db.Items(key), Encode(NewMessage(req, now)))]), Posted)
  }

  /** POST with a `channel` in the body and no query: register that channel. */
  function CreateChannelSpec(db: Db, name: string): Step {
    if Trim(name) == "" then Step(db, BadRequest(ChannelNameError))
    else Step(db.(sets := db.sets[RegistryKey := Registry(db) + {name}]), Created(name))
  }

  function PostSpec(db: Db, req: PostRequest, now: nat): Step {
    if Truthy(req.channelQuery) then PostMessageSpec(db, req.channelQuery.value, req, now)
    else if Truthy(req.channelBody) then CreateChannelSpec(db, req.channelBody.value)
    else Step(db, BadRequest(NoDataError))
  }

  function DeleteSpec(db: Db, req: DeleteRequest): Step {
    if !Truthy(req.channel) then Step(db, BadRequest(ChannelNameError))
    else
      var name := req.channel.value;
      Step(Db(SetWithout(db.sets, RegistryKey, name), db.lists - {LogKey(name)}), Deleted(name))
  }

  /** Log keys and the registry key are told apart by the `chat:` prefix. */
  lemma LogKeyIsLogKey(channel: string)
    ensures IsLogKey(LogKey(channel)) && !IsLogKey(RegistryKey)
  {
    assert RegistryKey[3] != LogPrefix[3];
  }

  // ---------------------------------------------------------------------------
  // The handlers

  /** GET /api/chat */
  method Get(store: Store, req: GetRequest) returns (response: Response)
    requires WellTyped(store.Snapshot())
    ensures response == GetSpec(store.Snapshot(), req)
    ensures response.Messages? ==> |response.entries| <= WindowSize
  {
    if req.action == Some(ListChannelsAction) {
      var channels := store.SMembers(RegistryKey);
      return ChannelList(channels);
    }
    var channel := ChannelName(req.channel);
    var key := LogKey(channel);
    LogKeyIsLogKey(channel);
    var messages := store.LRange(key, 0, WindowSize - 1);
    response := Messages(DecodeAll(messages));
  }

  /** LPUSH then LTRIM 0 99 on a channel's log: the entry goes in front and the log keeps its newest 100 entries. */
  method PushAndTrim(store: Store, channel: string, entry: string)
    requires WellTyped(store.Snapshot())
    modifies store
    ensures WellTyped(store.Snapshot())
    ensures store.Snapshot() == old(store.Snapshot()).(lists := old(store.lists)[LogKey(channel) := PushTrim(old(Log(store.Snapshot(), channel)), entry)])
  {
    var key := LogKey(channel);
    LogKeyIsLogKey(channel);
    ghost var before := store.Snapshot();
    ghost var log := before.Items(key);
    store.LPush(key, entry);
    store.LTrim(key, 0, MaxLogLength - 1);
    RangeFromZero([entry] + log, MaxLogLength);
    assert store.lists == before.lists[key := PushTrim(log, entry)];
  }

  /** POST /api/chat: post a message with `?channel`, otherwise create the channel named in the body. */
  method Post(store: Store, req: PostRequest, now: nat) returns (response: Response)
    requires WellTyped(store.Snapshot())
    modifies store
    ensures WellTyped(store.Snapshot())
    ensures Step(store.Snapshot(), response) == PostSpec(old(store.Snapshot()), req, now)
  {
    var channelQuery := req.channelQuery;
    if Truthy(channelQuery) {
      if !Truthy(req.user) || !Truthy(req.message) {
        return BadRequest(MissingFieldsError);
      }
      var messageObj := NewMessage(req, now);
      PushAndTrim(store, channelQuery.value, Encode(messageObj));
      return Posted;
    }
    var channelBody := req.channelBody;
    if Truthy(channelBody) {
      if Trim(channelBody.value) == "" {
        return BadRequest(ChannelNameError);
      }
      LogKeyIsLogKey(channelBody.value);
      store.SAdd(RegistryKey, channelBody.value);
      return Created(channelBody.value);
    }
    return BadRequest(NoDataError);
  }

  /** DELETE /api/chat?channel=name: unregister the channel and drop its log. */
  method Delete(store: Store, req: DeleteRequest) returns (response: Response)
    requires WellTyped(store.Snapshot())
    modifies store
    ensures WellTyped(store.Snapshot())
    ensures Step(store.Snapshot(), response) == DeleteSpec(old(store.Snapshot()), req)
  {
    var channel := req.channel;
    if !Truthy(channel) {
      return BadRequest(ChannelNameError);
    }
    LogKeyIsLogKey(channel.value);
    store.SRem(RegistryKey, channel.value);
    store.Del(LogKey(channel.value));
    return Deleted(channel.value);
  }
}

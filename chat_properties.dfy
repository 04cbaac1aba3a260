/**
 * What the chat route guarantees, stated over the specifications of its
 * handlers (GetSpec, PostSpec, DeleteSpec), which the handler methods are
 * proved to follow.
 */
module ChatProperties {
  import opened Wrappers
  import opened JsText
  import opened MessageCodec
  import opened KeyedStore
  import opened ChatRoute

  // ---------------------------------------------------------------------------
  // Keys

  /** Distinct channels have distinct log keys, and no log key is the registry key. */
  lemma LogKeyInjective(a: string, b: string)
    ensures LogKey(a) == LogKey(b) <==> a == b
    ensures LogKey(a) != RegistryKey
  {
    if LogKey(a) == LogKey(b) {
      assert a == LogKey(a)[|LogPrefix|..];
      assert b == LogKey(b)[|LogPrefix|..];
    }
    LogKeyIsLogKey(a);
  }

  // ---------------------------------------------------------------------------
  // Lenient decoding

  /** An entry the route wrote reads back as the message it wrote. */
  lemma EncodedEntryIsStructured(m: Message)
    ensures DecodeEntry(Encode(m)) == Structured(m)
  {
    DecodeEncode(m);
  }

  /** An entry is returned raw exactly when it is not the serialization of any message. */
  lemma RawEntryIsNotAMessage(e: string)
    ensures DecodeEntry(e) == Raw(e) <==> forall m :: Encode(m) != e
  {
    if DecodeEntry(e).Raw? {
      forall m ensures Encode(m) != e {
        DecodeEncode(m);
      }
    }
  }

  // ---------------------------------------------------------------------------
  // How PostSpec dispatches

  /** A POST with `?channel`, `user` and `message` is a push onto that channel's log. */
  lemma PostIsPush(db: Db, req: PostRequest, now: nat)
    requires Truthy(req.channelQuery) && Truthy(req.user) && Truthy(req.message)
    ensures var key := LogKey(req.channelQuery.value);
      PostSpec(db, req, now) == Step(db.(lists := db.lists[key := PushTrim(db.Items(key), Encode(NewMessage(req, now)))]), Posted)
  {
  }

  /** A POST without `?channel` but with a body `channel` is a create. */
  lemma PostIsCreate(db: Db, req: PostRequest, now: nat)
    requires !Truthy(req.channelQuery) && Truthy(req.channelBody)
    ensures PostSpec(db, req, now) == CreateChannelSpec(db, req.channelBody.value)
  {
  }

  // ---------------------------------------------------------------------------
  // Posting a message

  /**
   * After a valid post the channel's log is the new serialized message
   * followed by the old log, cut to at most `MaxLogLength` entries.
   */
  lemma PostAppendsToLog(db: Db, req: PostRequest, now: nat)
    requires Truthy(req.channelQuery) && Truthy(req.user) && Truthy(req.message)
    ensures var step := PostSpec(db, req, now);
      var before, after := Log(db, req.channelQuery.value), Log(step.db, req.channelQuery.value);
      && step.response == Posted
      && after == PushTrim(before, Encode(NewMessage(req, now)))
      && |after| == Min(MaxLogLength, |before| + 1)
      && after[0] == Encode(NewMessage(req, now))
      && after[1..] == before[..|after| - 1]
      && DecodeEntry(after[0]) == Structured(NewMessage(req, now))
  {
    PostIsPush(db, req, now);
    EncodedEntryIsStructured(NewMessage(req, now));
  }

  /** With `?channel`, a post is accepted exactly when `user` and `message` are both non-empty; otherwise nothing changes. */
  lemma PostValidation(db: Db, req: PostRequest, now: nat)
    requires Truthy(req.channelQuery)
    ensures PostSpec(db, req, now).response == Posted <==> Truthy(req.user) && Truthy(req.message)
    ensures !Truthy(req.user) || !Truthy(req.message) ==>
      PostSpec(db, req, now) == Step(db, BadRequest(MissingFieldsError))
  {
  }

  /** A message of whitespace only is accepted, although a channel name of whitespace only is refused. */
  lemma BlankMessageIsAccepted(db: Db, channel: string, user: string, msg: string, name: string, now: nat)
    requires channel != "" && user != ""
    requires msg != "" && Blank(msg) && name != "" && Blank(name)
    ensures PostSpec(db, PostRequest(Some(channel), Some(user), Some(msg), None, None), now).response == Posted
    ensures PostSpec(db, PostRequest(None, None, None, None, Some(name)), now)
      == Step(db, BadRequest(ChannelNameError))
  {
    TrimEmptyIffBlank(name);
  }

  /** A post with a non-empty `?channel` never touches the registry, whatever the body's `channel` says. */
  lemma QueryTakesPrecedence(db: Db, req: PostRequest, now: nat)
    requires Truthy(req.channelQuery)
    ensures PostSpec(db, req, now).db.sets == db.sets
    ensures PostSpec(db, req, now).response in {Posted, BadRequest(MissingFieldsError)}
  {
  }

  /** A post to a channel nobody registered still succeeds, and leaves the channel unregistered. */
  lemma PostToUnregisteredChannel(db: Db, req: PostRequest, now: nat)
    requires Truthy(req.channelQuery) && req.channelQuery.value !in Registry(db)
    requires Truthy(req.user) && Truthy(req.message)
    ensures PostSpec(db, req, now).response == Posted
    ensures req.channelQuery.value !in Registry(PostSpec(db, req, now).db)
    ensures |Log(PostSpec(db, req, now).db, req.channelQuery.value)| >= 1
  {
    PostAppendsToLog(db, req, now);
  }

  /** A post changes only its own channel's log. */
  lemma PostIsolation(db: Db, req: PostRequest, now: nat)
    requires Truthy(req.channelQuery)
    ensures var after := PostSpec(db, req, now).db;
      && Registry(after) == Registry(db)
      && after.sets == db.sets
      && (forall k :: k != LogKey(req.channelQuery.value) ==> after.Items(k) == db.Items(k))
      && (forall c :: c != req.channelQuery.value ==> Log(after, c) == Log(db, c))
  {
    forall c | c != req.channelQuery.value
      ensures Log(PostSpec(db, req, now).db, c) == Log(db, c)
    {
      LogKeyInjective(c, req.channelQuery.value);
    }
  }

  /** A post with neither a `?channel` nor a body `channel` is refused and changes nothing. */
  lemma PostWithoutChannel(db: Db, req: PostRequest, now: nat)
    requires !Truthy(req.channelQuery) && !Truthy(req.channelBody)
    ensures PostSpec(db, req, now) == Step(db, BadRequest(NoDataError))
    ensures PostSpec(db, req, now).response.Status() == 400
  {
  }

  // ---------------------------------------------------------------------------
  // Many posts

  /** The log after posting `entries` to it, first entry first. */
  function PushAll(log: seq<string>, entries: seq<string>): seq<string>
    decreases |entries|
  {
    if entries == [] then log else PushAll(PushTrim(log, entries[0]), entries[1..])
  }

  function Reverse<T>(s: seq<T>): (r: seq<T>)
    ensures |r| == |s|
    ensures forall i :: 0 <= i < |s| ==> r[i] == s[|s| - 1 - i]
  {
    if s == [] then [] else Reverse(s[1..]) + [s[0]]
  }

  lemma TakeAfterTake(a: seq<string>, b: seq<string>, n: nat)
    ensures (a + b[..Min(n, |b|)])[..Min(n, |a| + Min(n, |b|))] == (a + b)[..Min(n, |a| + |b|)]
  {
    var left := (a + b[..Min(n, |b|)])[..Min(n, |a| + Min(n, |b|))];
    var right := (a + b)[..Min(n, |a| + |b|)];
    assert |left| == |right|;
    forall i | 0 <= i < |left| ensures left[i] == right[i] {
      if i >= |a| {
        assert left[i] == b[i - |a|];
      }
    }
  }

  /**
   * After any number of posts the log holds the newest `MaxLogLength`
   * entries, newest first: the posted entries in reverse order of arrival,
   * then the old log.
   */
  lemma {:induction false} PushAllKeepsNewest(log: seq<string>, entries: seq<string>)
    requires |log| <= MaxLogLength
    ensures PushAll(log, entries) == (Reverse(entries) + log)[..Min(MaxLogLength, |entries| + |log|)]
    decreases |entries|
  {
    if entries == [] {
      assert Reverse(entries) + log == log;
    } else {
      var e, rest := entries[0], entries[1..];
      var pushed := PushTrim(log, e);
      PushAllKeepsNewest(pushed, rest);
      assert Reverse(entries) == Reverse(rest) + [e];
      TakeAfterTake(Reverse(rest), [e] + log, MaxLogLength);
      assert Reverse(rest) + ([e] + log) == Reverse(entries) + log;
    }
  }

  // ---------------------------------------------------------------------------
  // Fetching messages

  /**
   * A fetch returns the first `min(20, |log|)` stored entries, newest
   * first as stored, each decoded leniently and none dropped.
   */
  lemma FetchWindow(db: Db, req: GetRequest)
    requires req.action != Some(ListChannelsAction)
    ensures var log := Log(db, ChannelName(req.channel));
      var response := GetSpec(db, req);
      && response.Messages?
      && |response.entries| == Min(WindowSize, |log|)
      && (forall i :: 0 <= i < |response.entries| ==> response.entries[i] == DecodeEntry(log[i]))
      && (log == [] ==> response.entries == [])
  {
    RangeFromZero(Log(db, ChannelName(req.channel)), WindowSize);
  }

  /** A GET without a channel, or with an empty one, reads `chat:general`. */
  lemma FetchDefaultsToGeneral(db: Db, req: GetRequest)
    requires req.action != Some(ListChannelsAction) && !Truthy(req.channel)
    ensures LogKey(ChannelName(req.channel)) == "chat:general"
    ensures GetSpec(db, req) == GetSpec(db, GetRequest(req.action, Some(DefaultChannel)))
  {
  }

  /** `?action=list_channels` returns the registry, whatever else the query holds. */
  lemma ListChannels(db: Db, req: GetRequest)
    requires req.action == Some(ListChannelsAction)
    ensures GetSpec(db, req) == ChannelList(Registry(db))
  {
  }

  /** A message just posted is the first entry of the next fetch of its channel. */
  lemma FetchAfterPost(db: Db, req: PostRequest, now: nat)
    requires Truthy(req.channelQuery) && Truthy(req.user) && Truthy(req.message)
    ensures var response := GetSpec(PostSpec(db, req, now).db, GetRequest(None, req.channelQuery));
      response.Messages? && |response.entries| >= 1 && response.entries[0] == Structured(NewMessage(req, now))
  {
    var after := PostSpec(db, req, now).db;
    PostAppendsToLog(db, req, now);
    FetchWindow(after, GetRequest(None, req.channelQuery));
  }

  /** The order the page shows a fetched window in: `data.reverse()`, oldest first. */
  function ClientOrder(entries: seq<Entry>): (shown: seq<Entry>)
    ensures |shown| == |entries|
    ensures forall i :: 0 <= i < |entries| ==> shown[i] == entries[|entries| - 1 - i]
  {
    Reverse(entries)
  }

  /** Two posts to a channel with no log: its log is the second entry, then the first; the registry is unchanged. */
  lemma TwoPosts(d1: Db, r1: PostRequest, r2: PostRequest, t1: nat, t2: nat)
    requires Truthy(r1.channelQuery) && Truthy(r1.user) && Truthy(r1.message)
    requires r2.channelQuery == r1.channelQuery && Truthy(r2.user) && Truthy(r2.message)
    requires Log(d1, r1.channelQuery.value) == []
    ensures var d3 := PostSpec(PostSpec(d1, r1, t1).db, r2, t2).db;
      && Log(d3, r1.channelQuery.value) == [Encode(NewMessage(r2, t2)), Encode(NewMessage(r1, t1))]
      && Registry(d3) == Registry(d1)
  {
    var d2 := PostSpec(d1, r1, t1).db;
    PostAppendsToLog(d1, r1, t1);
    PostIsolation(d1, r1, t1);
    assert Log(d2, r1.channelQuery.value) == [Encode(NewMessage(r1, t1))];
    PostAppendsToLog(d2, r2, t2);
    PostIsolation(d2, r2, t2);
  }

  /**
   * Create `dev`, post `m1` by `a`, then `m2` by `b`: the fetch returns
   * `m2, m1` (newest first) and the page shows `m1, m2`.
   */
  lemma DevChannelScenario(db: Db, t0: nat, t1: nat, t2: nat)
    requires Log(db, "dev") == []
    ensures var d1 := PostSpec(db, PostRequest(None, None, None, None, Some("dev")), t0).db;
      var d3 := PostSpec(PostSpec(d1, PostRequest(Some("dev"), Some("a"), Some("m1"), None, None), t1).db,
                         PostRequest(Some("dev"), Some("b"), Some("m2"), None, None), t2).db;
      var response := GetSpec(d3, GetRequest(None, Some("dev")));
      && "dev" in Registry(d3)
      && response == Messages([Structured(Message("b", "m2", None, t2)), Structured(Message("a", "m1", None, t1))])
      && ClientOrder(response.entries) == [Structured(Message("a", "m1", None, t1)), Structured(Message("b", "m2", None, t2))]
  {
    var create := PostRequest(None, None, None, None, Some("dev"));
    var r1 := PostRequest(Some("dev"), Some("a"), Some("m1"), None, None);
    var r2 := PostRequest(Some("dev"), Some("b"), Some("m2"), None, None);
    var m1, m2 := Message("a", "m1", None, t1), Message("b", "m2", None, t2);
    var d1 := PostSpec(db, create, t0).db;
    assert !IsWhitespace("dev"[0]);
    CreateChannel(db, create, t0);
    assert "dev" in Registry(d1) && Log(d1, "dev") == [];
    TwoPosts(d1, r1, r2, t1, t2);
    assert NewMessage(r1, t1) == m1 && NewMessage(r2, t2) == m2;
    var d3 := PostSpec(PostSpec(d1, r1, t1).db, r2, t2).db;
    FetchTwo(d3, "dev", m1, m2);
    ReverseTwo(Structured(m2), Structured(m1));
  }

  lemma ReverseTwo<T>(a: T, b: T)
    ensures Reverse([a, b]) == [b, a]
  {
  }

  /** Fetching a log of two entries the route wrote gives both messages back, newest first. */
  lemma FetchTwo(db: Db, channel: string, m1: Message, m2: Message)
    requires channel != "" && Log(db, channel) == [Encode(m2), Encode(m1)]
    ensures GetSpec(db, GetRequest(None, Some(channel))) == Messages([Structured(m2), Structured(m1)])
  {
    FetchWindow(db, GetRequest(None, Some(channel)));
    EncodedEntryIsStructured(m1);
    EncodedEntryIsStructured(m2);
  }

  // ---------------------------------------------------------------------------
  // Creating and deleting channels

  /**
   * Creating a channel refuses a name that trims to nothing, changing
   * nothing, and otherwise adds the name exactly as given.
   */
  lemma CreateChannel(db: Db, req: PostRequest, now: nat)
    requires !Truthy(req.channelQuery) && Truthy(req.channelBody)
    ensures var name, step := req.channelBody.value, PostSpec(db, req, now);
      && (step.response.BadRequest? <==> Blank(name))
      && (Blank(name) ==> step == Step(db, BadRequest(ChannelNameError)))
      && (!Blank(name) ==> step == Step(db.(sets := db.sets[RegistryKey := Registry(db) + {name}]), Created(name)))
      && (!Blank(name) ==> Registry(step.db) == Registry(db) + {name})
  {
    PostIsCreate(db, req, now);
    CreateChannelCases(db, req.channelBody.value);
  }

  lemma CreateChannelCases(db: Db, name: string)
    ensures Blank(name) ==> CreateChannelSpec(db, name) == Step(db, BadRequest(ChannelNameError))
    ensures !Blank(name) ==> CreateChannelSpec(db, name) == Step(db.(sets := db.sets[RegistryKey := Registry(db) + {name}]), Created(name))
  {
    TrimEmptyIffBlank(name);
  }

  /** Creating the same channel twice leaves the store as creating it once. */
  lemma CreateIsIdempotent(db: Db, req: PostRequest, now: nat)
    requires !Truthy(req.channelQuery)
    ensures var once := PostSpec(db, req, now);
      PostSpec(once.db, req, now) == once
  {
    if Truthy(req.channelBody) {
      var name := req.channelBody.value;
      var once := CreateChannelSpec(db, name);
      PostIsCreate(db, req, now);
      PostIsCreate(once.db, req, now);
      CreateChannelSpecIdempotent(db, name);
    }
  }

  lemma CreateChannelSpecIdempotent(db: Db, name: string)
    ensures var once := CreateChannelSpec(db, name);
      CreateChannelSpec(once.db, name) == once
  {
    var once := CreateChannelSpec(db, name);
    CreateChannelCases(db, name);
    CreateChannelCases(once.db, name);
    if !Blank(name) {
      assert once.db.sets[RegistryKey := Registry(once.db) + {name}] == once.db.sets;
    }
  }

  /** A DELETE without a channel name is refused and changes nothing. */
  lemma DeleteRejectsMissingName(db: Db, req: DeleteRequest)
    requires !Truthy(req.channel)
    ensures DeleteSpec(db, req) == Step(db, BadRequest(ChannelNameError))
  {
  }

  /**
   * Deleting a channel removes its name from the registry and drops its
   * log; every other registry member and every other channel's log stays.
   */
  lemma DeleteChannel(db: Db, req: DeleteRequest)
    requires Truthy(req.channel)
    ensures var name, step := req.channel.value, DeleteSpec(db, req);
      && step.response == Deleted(name)
      && Registry(step.db) == Registry(db) - {name}
      && LogKey(name) !in step.db.lists && Log(step.db, name) == []
      && (forall c :: c != name ==> Log(step.db, c) == Log(db, c))
      && (forall k :: k != LogKey(name) ==> step.db.Items(k) == db.Items(k))
  {
    var name := req.channel.value;
    forall c | c != name ensures Log(DeleteSpec(db, req).db, c) == Log(db, c) {
      LogKeyInjective(c, name);
    }
  }

  /** After a delete, the channel is not listed and a fetch of it returns nothing. */
  lemma FetchAfterDelete(db: Db, name: string)
    requires name != ""
    ensures var after := DeleteSpec(db, DeleteRequest(Some(name))).db;
      && GetSpec(after, GetRequest(Some(ListChannelsAction), None)) == ChannelList(Registry(db) - {name})
      && GetSpec(after, GetRequest(None, Some(name))) == Messages([])
  {
    DeleteChannel(db, DeleteRequest(Some(name)));
  }

  // ---------------------------------------------------------------------------
  // Invariants

  /** The empty store satisfies both invariants. */
  lemma EmptyStoreInvariants()
    ensures WellTyped(Db(map[], map[])) && LogsBounded(Db(map[], map[]))
  {
  }

  /** Every POST keeps every log within `MaxLogLength` entries and every key of its kind. */
  lemma PostPreservesInvariants(db: Db, req: PostRequest, now: nat)
    requires WellTyped(db) && LogsBounded(db)
    ensures WellTyped(PostSpec(db, req, now).db) && LogsBounded(PostSpec(db, req, now).db)
  {
    if Truthy(req.channelQuery) {
      LogKeyIsLogKey(req.channelQuery.value);
    } else if Truthy(req.channelBody) {
      LogKeyIsLogKey(req.channelBody.value);
    }
  }

  /** Every DELETE keeps both invariants. */
  lemma DeletePreservesInvariants(db: Db, req: DeleteRequest)
    requires WellTyped(db) && LogsBounded(db)
    ensures WellTyped(DeleteSpec(db, req).db) && LogsBounded(DeleteSpec(db, req).db)
  {
  }
}

# Chat store model

A Dafny model of the server side of a multi-channel chat: the API route
`src/app/api/chat/route.ts`, with its three handlers over a Redis store.

- **Channel registry.** The set of channel names under the key `channels`.
- **Message logs.** One list per channel under the key `chat:<name>`. Each
  entry is a serialized message `{user, message, avatar, timestamp}`, newest
  first. Each post cuts the list to 100 entries.
- **Handlers.**
  - `GET ?action=list_channels` returns the registry.
  - Any other `GET` returns the first 20 entries of `chat:<channel>`. The
    channel defaults to `general`. Each entry is decoded leniently: an entry
    that does not parse comes back as its raw string.
  - `POST ?channel=c` with `user` and `message` pushes a new message onto
    `chat:c` and trims the list.
  - `POST` with only a body `channel` registers that name, unless it is blank
    once trimmed.
  - `DELETE ?channel=c` unregisters `c` and deletes `chat:c`.

## Files

- `wrappers.dfy`: `Option`, the optional values of JavaScript (`null` or
  absent), and `Min`.
- `js_text.dfy`: JavaScript truthiness of an optional string, and
  `String.prototype.trim` with ECMAScript's set of whitespace and line
  terminators.
- `message_codec.dfy`: the stored form of a message. For strings of Unicode
  scalar values, `Encode` writes what `JSON.stringify` writes for the message
  object: keys in insertion order,
  `null` for no avatar, and JSON's string escapes with lower-case `\u00xx`.
  `Decode` accepts exactly those texts. `Decode` and `Encode` are proved to be
  inverses in both directions.
- `keyed_store.dfy`: the store. `Db` is the store's content as a value. Its
  invariants are that a key holds either a set or a list, and that empty sets
  and lists do not exist. `Store` is a class over two maps, one for sets and one for lists.
  `SAdd`/`SRem`/`LPush`/`LTrim`/`Del` update those maps in place, and
  `SMembers`/`LRange` only read them, each with its Redis meaning. `Range` gives the index
  semantics that `LRANGE` and `LTRIM` share, negative indices included.
- `chat_route.dfy`: the key scheme, the requests and responses, the
  specifications `GetSpec`, `PostSpec` and `DeleteSpec`, and the handlers
  `Get`, `Post` and `Delete`. Each handler issues the store commands in the
  route's order. Each is proved to give the state and response of its
  specification.
- `chat_properties.dfy`: the lemmas that state the route's guarantees over
  those specifications.

Ordering: `GET` returns the window in stored order, newest first. The
comment at route.ts:38 says the window is reversed, but the handler does not
reverse it. Only the page reverses it (`data.reverse()` at
src/app/page.tsx:127). The model follows the code and gives the page's order
as `ChatProperties.ClientOrder`.

Channel names: the code rejects only names that are blank once trimmed, and
stores the name untrimmed. `DELETE` accepts any non-empty name, so a blank
name such as `"  "` is accepted there.

## Model

| member | source | states |
|---|---|---|
| JsText.TrimStartShape | src/app/api/chat/route.ts:94 | the result is a suffix of the input; everything removed is whitespace; the result does not start with whitespace |
| JsText.TrimEndShape | src/app/api/chat/route.ts:94 | the result is a prefix of the input; everything removed is whitespace; the result does not end with whitespace |
| JsText.TrimEmptyIffBlank | src/app/api/chat/route.ts:94 | `name.trim()` is empty exactly when every character of `name` is whitespace |
| JsText.Truthy | src/app/api/chat/route.ts:67-68 | an optional string is truthy exactly when it is present and not empty, as `if (x)` and `!x` test it and as the `avatar` default at route.ts:79 reads it |
| JsText.Trim | src/app/api/chat/route.ts:94 | `trim` is TrimEnd after TrimStart; TrimStartShape, TrimEndShape and TrimEmptyIffBlank state what it removes |
| MessageCodec.ShowNat | src/app/api/chat/route.ts:80 | the decimal text of the timestamp is digits only, with no leading zero except for `0` itself |
| MessageCodec.DigitRun | src/app/api/chat/route.ts:43 | the longest run of digits at the front of a text |
| MessageCodec.ParseNatShowNat | src/app/api/chat/route.ts:43 | parsing a number reads back the timestamp that was written, and stops at the next non-digit |
| MessageCodec.ParseNatCanonical | src/app/api/chat/route.ts:43 | a number that parses is the decimal text of its value |
| MessageCodec.EscapeChar | src/app/api/chat/route.ts:84 | an escaped character is never a bare closing quote |
| MessageCodec.ParseCharOfEscape | src/app/api/chat/route.ts:43 | reading an escaped character gives back the character, and consumes exactly its escape |
| MessageCodec.ParseCharCanonical | src/app/api/chat/route.ts:43 | any character that is read was written as the escape `JSON.stringify` produces for it |
| MessageCodec.ParseStringBodyOfEscape | src/app/api/chat/route.ts:43 | a string literal's body reads back as the original string, and the text after the closing quote is left over |
| MessageCodec.ParseStringBodyCanonical | src/app/api/chat/route.ts:43 | a body that parses is the escaped form of what it parses to |
| MessageCodec.Encode | src/app/api/chat/route.ts:76-84 | the text `JSON.stringify` writes for the message object: `user`, `message`, `avatar` (or `null`), `timestamp`, in that order; DecodeEncode and DecodeCanonical make it the exact inverse of Decode |
| MessageCodec.Decode | src/app/api/chat/route.ts:43 | reads back a stored message field by field, and fails on any other text; DecodeEncode and DecodeCanonical state that it inverts Encode exactly |
| MessageCodec.DecodeEncode | src/app/api/chat/route.ts:76-84 | decoding the serialization of a message gives back that message |
| MessageCodec.DecodeCanonical | src/app/api/chat/route.ts:41-47 | a text that decodes to a message is exactly that message's serialization |
| KeyedStore.Range | src/app/api/chat/route.ts:39 | an index range is never longer than the list, and its elements are consecutive elements of the list from the normalised start |
| KeyedStore.RangeFromZero | src/app/api/chat/route.ts:87 | the range `0..count-1` is the first `count` elements, or the whole list when it is shorter |
| KeyedStore.SetWithout | src/app/api/chat/route.ts:127 | SREM keeps every other key and its set; the key keeps its set less the member, and the key is removed exactly when nothing but the member was left in it; no key is created |
| KeyedStore.Store.SAdd | src/app/api/chat/route.ts:101 | the set under the key gains the member; every other key, and every list, is unchanged |
| KeyedStore.Store.SRem | src/app/api/chat/route.ts:127 | the set under the key loses the member, and a set left empty loses its key; the lists are unchanged |
| KeyedStore.Store.SMembers | src/app/api/chat/route.ts:30 | returns the set under the key, or the empty set for a missing key |
| KeyedStore.Store.LPush | src/app/api/chat/route.ts:84 | the value becomes the list's new first element; the other keys are unchanged |
| KeyedStore.Store.LTrim | src/app/api/chat/route.ts:87 | the list becomes the given index range, and its key is removed when that range is empty |
| KeyedStore.Store.LRange | src/app/api/chat/route.ts:39 | returns the given index range of the list under the key, or nothing for a missing key |
| KeyedStore.Store.Del | src/app/api/chat/route.ts:128 | the key is removed, whatever it holds, and nothing else changes |
| ChatRoute.LogKey | src/app/api/chat/route.ts:75 | the log key of a channel carries the `chat:` prefix, and the channel name is what follows it |
| ChatRoute.PushTrim | src/app/api/chat/route.ts:84-87 | the log after LPUSH then LTRIM 0 99 holds `min(100, n+1)` entries: the new entry first, then the old log in order |
| ChatRoute.ChannelName | src/app/api/chat/route.ts:14-17 | the channel a GET reads is never empty |
| ChatRoute.LogKeyIsLogKey | src/app/api/chat/route.ts:9 | every `chat:` key has the log prefix, and the registry key `channels` does not |
| ChatRoute.DecodeEntry | src/app/api/chat/route.ts:41-47 | an entry comes back as a message only when it is that message's serialization; otherwise it comes back as the unchanged raw text |
| ChatRoute.DecodeAll | src/app/api/chat/route.ts:41-47 | the decoded window has as many entries as the stored one, each decoded in place, none dropped |
| ChatRoute.PushAndTrim | src/app/api/chat/route.ts:84-87 | the entry becomes the head of the channel's log, the log keeps at most its 100 newest entries, nothing else changes, and no key holds the wrong kind of value |
| ChatRoute.GetSpec | src/app/api/chat/route.ts:24-50 | the registry for `list_channels`, otherwise the decoded entries 0 to 19 of the channel's log; FetchWindow, ListChannels and FetchDefaultsToGeneral state its cases |
| ChatRoute.PostMessageSpec | src/app/api/chat/route.ts:67-89 | a 400 with no change unless `user` and `message` are both truthy, otherwise the log replaced by PushTrim of the new message; PostValidation, PostAppendsToLog and PostIsolation state it |
| ChatRoute.CreateChannelSpec | src/app/api/chat/route.ts:93-102 | a 400 with no change for a name that trims to nothing, otherwise the name added untrimmed to the registry; CreateChannel and CreateIsIdempotent state it |
| ChatRoute.PostSpec | src/app/api/chat/route.ts:60-109 | a message post when `?channel` is truthy, else a create when the body `channel` is truthy, else a 400 with no change; QueryTakesPrecedence and PostWithoutChannel state the dispatch |
| ChatRoute.DeleteSpec | src/app/api/chat/route.ts:116-131 | a 400 with no change without a name, otherwise the name removed from the registry and its log key dropped; DeleteRejectsMissingName and DeleteChannel state it |
| ChatRoute.Get | src/app/api/chat/route.ts:24-50 | reads the store without changing it; returns the registry for `list_channels` and otherwise the decoded window, at most 20 entries, as GetSpec says |
| ChatRoute.Post | src/app/api/chat/route.ts:60-109 | pushes and then trims the log for a message post, or adds to the registry for a create, or changes nothing on a 400. The new store and the response are those of PostSpec. No key ever holds the wrong kind of value |
| ChatRoute.Delete | src/app/api/chat/route.ts:116-131 | removes the name from the registry and then deletes the log key, or answers 400 and changes nothing; the new store and the response are those of DeleteSpec |
| ChatProperties.LogKeyInjective | src/app/api/chat/route.ts:75 | two channels share a log key only when they are the same channel, and no log key is the registry key |
| ChatProperties.EncodedEntryIsStructured | src/app/api/chat/route.ts:41-47 | an entry the route wrote is returned as the message it wrote |
| ChatProperties.RawEntryIsNotAMessage | src/app/api/chat/route.ts:44-46 | an entry is returned raw exactly when no message serializes to it |
| ChatProperties.PostAppendsToLog | src/app/api/chat/route.ts:75-89 | after a valid post, the log starts with the new serialized message, followed by the old log. It holds `min(100, old length + 1)` entries, and its head decodes to the posted message |
| ChatRoute.NewMessage | src/app/api/chat/route.ts:76-81 | the stored message has the user and message exactly as sent, untrimmed; the avatar is null when absent or empty; the timestamp is the injected clock value |
| ChatProperties.PostValidation | src/app/api/chat/route.ts:67-73 | with `?channel`, a post succeeds exactly when `user` and `message` are both non-empty; otherwise it answers 400 and the store is unchanged |
| ChatProperties.BlankMessageIsAccepted | src/app/api/chat/route.ts:68-99 | any non-empty message made only of whitespace is posted, while any non-empty channel name made only of whitespace is refused |
| ChatProperties.QueryTakesPrecedence | src/app/api/chat/route.ts:64-67 | a post with a non-empty `?channel` leaves the registry unchanged and never creates a channel, even when the body holds `channel` |
| ChatProperties.PostToUnregisteredChannel | src/app/api/chat/route.ts:75 | posting to an unregistered channel succeeds, creates its log, and leaves the channel unregistered |
| ChatProperties.PostIsolation | src/app/api/chat/route.ts:75-87 | a post changes no key but its own channel's log: every set, the registry included, and every other key's list are unchanged |
| ChatProperties.PostWithoutChannel | src/app/api/chat/route.ts:105-108 | a post with neither `?channel` nor a body `channel` answers 400 and changes nothing |
| ChatProperties.Reverse | src/app/page.tsx:127 | reversal keeps the length and puts element `i` at position `n-1-i` |
| ChatProperties.ClientOrder | src/app/page.tsx:127 | the page shows the fetched window reversed: same length, entry `i` at position `n-1-i`, so oldest first |
| ChatProperties.PushAllKeepsNewest | src/app/api/chat/route.ts:84-87 | after any number of posts to a log of at most 100 entries, it holds the 100 newest entries, newest first: the new entries latest-first, then the old log |
| ChatProperties.FetchWindow | src/app/api/chat/route.ts:35-47 | a fetch returns `min(20, length)` entries. Each is the lenient decode of the stored entry at the same position, in stored order. A channel without a log gives an empty result |
| ChatProperties.FetchDefaultsToGeneral | src/app/api/chat/route.ts:14-17 | a GET with no channel, or an empty one, reads `chat:general` |
| ChatProperties.ListChannels | src/app/api/chat/route.ts:29-32 | `?action=list_channels` returns the registry whatever the other parameters are |
| ChatProperties.FetchAfterPost | src/app/api/chat/route.ts:35-89 | the first entry of the next fetch of the channel is the message just posted |
| ChatProperties.DevChannelScenario | src/app/api/chat/route.ts:35-102 | create `dev`, post `m1`, post `m2`: `dev` is registered, the fetch returns `m2, m1`, and the page shows `m1, m2` |
| ChatProperties.CreateChannel | src/app/api/chat/route.ts:93-102 | a create fails exactly when the name is blank, and then changes nothing. Otherwise it adds the name as given to the registry and leaves every log and every other set alone |
| ChatProperties.CreateIsIdempotent | src/app/api/chat/route.ts:101 | doing the same create a second time leaves the store and the response as after the first |
| ChatProperties.DeleteRejectsMissingName | src/app/api/chat/route.ts:120-125 | a delete without a name, or with an empty one, answers 400 and changes nothing |
| ChatProperties.DeleteChannel | src/app/api/chat/route.ts:127-130 | a delete removes exactly that name from the registry and drops `chat:<name>`; every other key's list is unchanged |
| ChatProperties.FetchAfterDelete | src/app/api/chat/route.ts:127-128 | after a delete, the channel is no longer listed and fetching it gives no entries |
| ChatProperties.EmptyStoreInvariants | src/app/api/chat/route.ts:4-7 | a fresh store is well typed and within the 100 bound |
| ChatProperties.PostPreservesInvariants | src/app/api/chat/route.ts:60-109 | every POST keeps every log within 100 entries and every key holding its own kind of value |
| ChatProperties.DeletePreservesInvariants | src/app/api/chat/route.ts:116-131 | every DELETE keeps both invariants |

## Left out

- The HTTP layer: `Request`, URL parsing, `req.json()` and `NextResponse`. The handlers take the already-parsed query parameters and body fields as optional strings. They return a `Response` value: its constructor stands for the JSON body, and `Status()` gives the status code.
- Body fields that are not strings (numbers, booleans, objects). The model's request fields are optional strings. In the route, a truthy non-string `user`, `message` or `avatar` passes the check at route.ts:68. It is then stored in its JSON form: posting `{"user":42,"message":"hi"}` with `?channel=c` succeeds and pushes `{"user":42,"message":"hi","avatar":null,"timestamp":…}`. A truthy non-string `channel` makes `channelBody.trim()` at route.ts:94 throw. A falsy non-string `channel` such as `0` or `false` gets the 400 of route.ts:105-108. None of these cases is modelled.
- A body that is not JSON at all, which makes `req.json()` throw, and a body that is JSON `null`, on which the destructuring at route.ts:62 throws. Neither is modelled; the model takes the body fields as already read.
- The Upstash client and its environment variables (route.ts:4-7). They are replaced by the in-memory `KeyedStore.Store`.
- Store failures. A command that meets a key holding the wrong kind of value fails in Redis with WRONGTYPE. The store methods and the handlers therefore require that no key holds the wrong kind, `ChatRoute.WellTyped`. Every handler and the empty store keep that invariant.
- Network failures, timeouts and error propagation. Not modelled.
- `Date.now()`. The clock is the `now` parameter of `Post`.
- Concurrency. Each handler runs to completion. Interleavings inside the non-atomic pairs LPUSH/LTRIM and SREM/DEL are not modelled, and neither are concurrent requests.
- `SMEMBERS` returns an array in no particular order. The model returns a set.
- DecodeEntry: `JSON.parse` accepts any JSON text. Text that is valid JSON but is not the serialization of a message would come back parsed, as some other JSON value. The model returns it raw, because the model's decoder recognises only the texts `Encode` writes. For every entry the route writes from string fields, the two agree.
- Lone surrogates. Strings are modelled as sequences of Unicode scalar values (Dafny's `char`), whereas JavaScript strings are sequences of UTF-16 code units. A body field holding an unpaired surrogate such as `"\ud800"` is accepted by the route and written by `JSON.stringify` as `\ud800`. The model cannot represent that field, so `Encode`, `Decode` and the round-trip lemmas cover only strings without unpaired surrogates.
- The page `src/app/page.tsx`: rendering, local identity, avatar, theme and the 2-second polling. Only its reversal of the fetched window is modelled, as `ChatProperties.ClientOrder`.
- `tailwind.config.ts`, which is styling only.

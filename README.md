# Session-gated relay: a Dafny model

This project models the server side of a small end-to-end-encrypted chat
relay written in Rust with axum and tokio. The server never decrypts
anything. It admits a WebSocket connection only after a `hello` frame
whose session token was issued at login to exactly the claimed username.
It then registers the connection's outbound channel under the lower-cased
username and relays `ciphertext` and `plaintext` envelopes verbatim: to
the registry entry of `to`, and as an echo to the entry of the lower-cased
`from`. Every join and leave broadcasts a full presence snapshot.

Modules, one per concern of the source:

- `State` (src/state.rs): the shared `AppState` and its three maps as
  classes whose fields the methods update in place. A clone of `AppState`
  holds the same three map objects. Outbound channels are one `Channels`
  object. Each channel is an append-only sequence of the texts sent on it.
- `Auth` (src/auth.rs): the fixed credential check, token issuing and
  token lookup.
- `Routes` (src/routes.rs): the public-key store (`post_pubkey`,
  `get_pubkeys`) and `login_handler`.
- `Json`: the parsed view of a frame that the relay inspects, and the
  derived `Deserialize` shapes `Hello` and `ForwardMsg` of src/ws.rs.
- `Strings`: `to_lowercase`, and the JSON text of the two server-built
  messages (join notice and presence).
- `Ws` (src/ws.rs): handshake, admission, the receive loop and its
  routing, cleanup, and the two broadcasts. `HandleSocket` composes
  them for one connection.
- `Scenarios`: end-to-end consequences, built from the steps above.

Effects are stated per channel. A broadcast appends its message to
channel `c` once per registry key whose entry is `c`. A routed envelope
reaches `c` once as the entry of `to` and once as the entry of
`Lower(from)`, so a self-addressed envelope arrives twice. The presence
list is any duplicate-free enumeration of the registry's keys, because
`HashMap` iteration order is unspecified.

Collaborators that are not modelled are parameters:

- the UUID of a new token;
- the connection's channel identity;
- the already parsed JSON of each text frame, next to its raw text;
- the frames arriving on the socket, as a sequence whose end is the end
  of the stream.

Three behaviours of the code worth noting:

- The envelope discriminator is the JSON member `type` (src/ws.rs:116).
- The echo goes to the registry entry of the envelope's own `from` field,
  lower-cased (src/ws.rs:136-137, 163-164), whichever connection sent
  it. An envelope without `to` is neither relayed nor echoed
  (src/ws.rs:129, 156).
- Issuing a token adds a binding and removes none (src/auth.rs:34), so
  every token issued to a user stays valid.

## Model

| member | source | states |
|---|---|---|
| State.ClientsMap.constructor | src/state.rs:12 | a new client registry is empty |
| State.TokenMap.constructor | src/state.rs:15 | a new token map is empty |
| State.UserKeysMap.constructor | src/state.rs:24 | a new user-key map is empty |
| State.AppState.constructor | src/state.rs:28-34 | `AppState::new` holds three fresh maps: empty registry, empty token map, empty user-key map |
| State.AppState.Sharing | src/state.rs:17-25 | a state built over existing maps refers to exactly those maps |
| State.AppState.Clone | src/state.rs:17-18 | a clone is a new object that shares the registry, token map and user-key map of the original |
| State.Channels.constructor | src/ws.rs:48 | before anything is sent, every channel is empty |
| State.Channels.Send | src/ws.rs:6 | a send appends the message to its own channel and leaves every other channel as it was |
| State.Repeat | src/ws.rs:5-7 | `n` deliveries of one message: exactly `n` elements, each that message |
| State.HoldersStep | src/ws.rs:5-6 | visiting one more registry key adds one holder of channel `c` exactly when that key's entry is `c` |
| State.HoldersOfInjective | src/ws.rs:94 | when no two keys share a channel, a registered channel is held by exactly one key and an unregistered one by none |
| State.InsertKeepsInjective | src/ws.rs:94 | registering a channel that no key holds keeps the channels distinct, also when the key replaces an older entry |
| Auth.VerifyLogin | src/auth.rs:24-28 | true exactly when the pair is ("alice","alice123") or ("bob","bob123") |
| Auth.OnlyDemoUsersLogIn | src/auth.rs:24-28 | no other username can log in, whatever the password |
| Auth.Issued | src/auth.rs:34 | the new map has exactly one more token (or the same tokens, for a repeated one), binds it to the username, and keeps every other binding |
| Auth.Lookup | src/auth.rs:40 | a lookup finds a value exactly for an issued token, and that value is the bound username |
| Auth.CreateTokenForUser | src/auth.rs:32-36 | the returned token is the supplied UUID, and the map gains exactly that binding to the username as given |
| Auth.UsernameForToken | src/auth.rs:39-41 | the answer is the lookup of the token; the map is not modified |
| Auth.LookupAfterIssue | src/auth.rs:34 | right after issuing, the token resolves to its username |
| Auth.IssuePreservesOtherTokens | src/auth.rs:34 | issuing a token leaves the resolution of every other token unchanged |
| Auth.LookupNeverIssued | src/auth.rs:39-41 | a token never issued resolves to nothing |
| Routes.PubKeyStore.constructor | src/routes.rs:7 | the key store starts empty |
| Routes.FieldOrEmpty | src/routes.rs:10-11 | a missing body field reads as the empty string, a present one as its value |
| Routes.PubkeyAccepted | src/routes.rs:12 | a body is accepted exactly when it has a non-empty `username` and a non-empty `pubkey` |
| Routes.PostPubkey | src/routes.rs:9-18 | with non-empty username and key, stores the pair (overwriting) and answers "ok"; otherwise answers "missing username or pubkey" and leaves the store unchanged; either way no other user's key is added, removed or changed |
| Routes.GetPubkeys | src/routes.rs:20-23 | the snapshot equals the whole store, and the store is not modified |
| Routes.LoginHandler | src/routes.rs:66-78 | valid credentials: status 200, ok:true with the new token, no message, and the token bound to the username as typed; invalid: status 401, ok:false, no token, "invalid credentials", and the token map untouched; if every token was bound to "alice" or "bob" before, that still holds after |
| Json.Get | src/ws.rs:116 | `get` finds a member exactly when the value is an object that has the key |
| Json.Kind | src/ws.rs:116 | an envelope has a kind exactly when it is an object whose `type` member is a string, and the kind is that string |
| Json.StrField | src/ws.rs:123-124 | `get(..).and_then(as_str)` yields a value exactly when the member is present and is a string, and it is that string |
| Json.DecodeHello | src/ws.rs:21-26 | an object decodes exactly when its `type`, `username` and `token` members are all strings, whatever other members it has, and the hello carries those strings; an array decodes exactly when it holds three strings, taken in field order; nothing else decodes |
| Json.OptionalStr | src/ws.rs:32-36 | an `Option<String>` member decodes to none when absent or null and to that same string when a string; any other value is a decode error |
| Json.DecodeForwardMsg | src/ws.rs:28-37 | decodes exactly when `type` and `from` are strings and `to`, `data`, `iv`, `cid` are each absent, null or a string; the decoded `from` and `to` are those members |
| Strings.LowerChar | src/ws.rs:93 | an upper-case ASCII letter becomes its lower-case letter; every other character is kept |
| Strings.Lower | src/ws.rs:93 | lower-casing keeps the length and lower-cases each character in place |
| Strings.LowerHasNoCapitals | src/ws.rs:93 | a lower-cased name contains no upper-case letter |
| Strings.LowerIdempotent | src/ws.rs:93 | lower-casing a registry key again gives the same key |
| Strings.Escape | src/ws.rs:100 | text without quotes, backslashes or control characters is written unchanged inside a string literal |
| Strings.Quote | src/ws.rs:202 | a string literal starts and ends with a quote, and holds plain text verbatim between them |
| Strings.ReadJoinedNames | src/ws.rs:202 | a list of plain names is read back, in order, from the members of the JSON array written for it |
| Strings.SystemJson | src/ws.rs:100 | the serialised system notice holds a plain message verbatim as its `msg` member, before `type` "system" |
| Strings.PresenceJson | src/ws.rs:200-203 | the `online` list of plain names is read back, in order and complete, from the serialised presence message |
| Ws.JoinNotice | src/ws.rs:100 | the join notice of a plain name is that name followed by " connected", in the `msg` member |
| Ws.FirstHello | src/ws.rs:62-70 | a hello is found exactly when the first stream item is a received text frame that decodes as `Hello` with `type` equal to "hello", and it is that decoded hello |
| Ws.Authenticate | src/ws.rs:72-93 | no hello: "hello required"; unknown token: "unknown token"; token bound to a different username (case-sensitive): "invalid token"; admitted exactly when the token resolves to the hello's username, and then under its lower-cased form |
| Ws.Classify | src/ws.rs:104-187 | non-text frames are ignored; exactly the unparsable text frames are malformed; a routed frame is a `ciphertext` or `plaintext` whose `to` is a string, routed to that `to` and from its `from` (empty if missing); every other `type` is ignored |
| Ws.CiphertextRoutedIffStringTo | src/ws.rs:123-129 | a `ciphertext` envelope is relayed if and only if its `to` is a string |
| Ws.PlaintextRoutedIffDecodesWithTo | src/ws.rs:149-156 | a `plaintext` envelope is relayed if and only if it decodes as `ForwardMsg` with a `to` that is neither absent nor null |
| Ws.SelfAddressedArrivesTwice | src/ws.rs:129-141 | an envelope whose `to` is the sender's own lower-cased name reaches that channel twice |
| Ws.CapitalisedTargetMisses | src/ws.rs:132 | because `to` is not lower-cased, a `to` with a capital letter never matches a registry key; only the echo is delivered |
| Ws.AdmissionKeepsNormalised | src/ws.rs:93-94 | admission under the lower-cased name keeps every registry key lower-case |
| Ws.AdmissionKeepsWellFormed | src/ws.rs:93-101 | admitting a connection whose channel is not yet registered keeps the keys lower-case and the channels distinct, and every registered channel, the new one included, then receives each broadcast exactly once |
| Ws.RemovalKeepsWellFormed | src/ws.rs:191-192 | removing a key keeps the keys lower-case and the channels distinct, and every remaining channel receives the presence broadcast exactly once |
| Ws.EnumerationSize | src/ws.rs:198 | a presence list has exactly as many names as there are registered keys |
| Ws.Enumerate | src/ws.rs:198 | the collected key list contains every registry key exactly once and nothing else |
| Ws.FanoutStep | src/ws.rs:5-6 | one send of the broadcast loop keeps each channel at "one copy per key visited so far that holds it" |
| Ws.BroadcastJson | src/ws.rs:1-8 | every channel gets the message once per registry key it holds, and nothing else changes |
| Ws.BroadcastPresence | src/ws.rs:196-205 | the online list is exactly the registry's key set, and it is broadcast to every registered channel |
| Ws.Handshake | src/ws.rs:62-101 | rejection: only the notice, on the connection's own channel, and the registry unchanged; admission: the lower-cased key now maps to this channel (replacing any prior entry), then every registered channel gets the presence snapshot of the new key set, then the join notice |
| Ws.Forward | src/ws.rs:129-145 | the raw text goes to the entry of `to` and to the entry of `Lower(from)`, once per match, and to no other channel |
| Ws.HandleFrame | src/ws.rs:105-187 | one frame delivers exactly its classification's effect: "invalid message format" to the sender only, the raw text to the routed channels, or nothing; the registry is not changed |
| Ws.ReceiveLoop | src/ws.rs:104-188 | the loop handles every item up to the end of the stream or the first transport error, and each channel gets exactly the concatenated effects of those frames in order |
| Ws.TrafficStep | src/ws.rs:104 | handling one more frame extends each channel's traffic by that frame's delivery |
| Ws.Cleanup | src/ws.rs:189-192 | the key is removed whichever channel it holds by now, and the remaining channels get the presence snapshot of the remaining keys |
| Ws.HandleSocket | src/ws.rs:43-193 | a rejected connection sends only its notice and registers nothing; an admitted one gets, on every channel in order, the join broadcasts, the relayed traffic and the leave broadcast, and the key is removed at the end |
| Scenarios.LoginThenHelloAdmits | src/ws.rs:82-94 | a hello that repeats the login username and token is admitted under the lower-cased username |
| Scenarios.HelloItemAdmits | src/ws.rs:62-94 | a well-formed hello object whose token is bound to its username is admitted |
| Scenarios.AliceHellosAdmitted | src/ws.rs:82-93 | hellos carrying either of two tokens issued to "alice" are both admitted under the key "alice" |
| Scenarios.OnlyDemoNamesAdmitted | src/ws.rs:82-94 | with tokens bound only to the demo users, as logins build them, a connection is admitted only as "alice" or "bob" |
| Scenarios.TokenOwnerComparedCaseSensitively | src/ws.rs:83 | a token issued to "alice" does not admit a hello from "Alice" |
| Scenarios.PlainHiRoutedToBob | src/ws.rs:147-156 | the plaintext envelope from "alice" to "bob" decodes and is routed to "bob", echoed to "alice" |
| Scenarios.AliceToBob | src/ws.rs:156-166 | with alice and bob on distinct channels, the envelope reaches bob's and alice's channels once each, byte for byte, and no other channel |
| Scenarios.SameUserConnectsTwice | src/ws.rs:94 | a second admission under the same key replaces the first connection's entry |
| Scenarios.ReplacedEntryLostWhenOlderLeaves | src/ws.rs:189-191 | after "alice" connects twice, on `a` and then on a new channel `b`, the older connection's cleanup removes the key, so `b`, still live, is no longer registered under any name |
| Scenarios.ClonesShareRegistry | src/state.rs:12 | an insert through a clone of the state is seen in the original's registry |

## Left out

- The async runtime is not modelled: the writer task that drains each
  channel into the socket, the `mpsc` mechanics and lock timing
  (src/ws.rs:45-57). Each step (`Handshake`, `HandleFrame`, `Cleanup`)
  is one atomic update of the shared state.
- Ws.HandleSocket: specified for a connection running with no other
  connection interleaved. Under interleaving only its steps' own
  contracts apply, each to the registry the other connections left.
- A failed send to a closed channel is not modelled; every send appends.
  The source ignores the result of each send.
- JSON parsing and serialisation by serde are taken as given. A frame
  carries its parsed value next to its raw text. An object is a map, so a
  text with a repeated key is represented after the parser collapsed it.
- Ws.FirstHello: decodes the hello from the parsed `Value` view of the
  text, while the source decodes `Hello` straight from the text
  (src/ws.rs:64). The two differ in both directions. A hello with a
  repeated `type`, `username` or `token` member is rejected by serde's
  derived decoder ("hello required"); the model decodes the collapsed
  object, where the last member wins, and may admit it. Conversely, the
  derived decoder skips ignored members without converting them, so a text
  that the `Value` parser rejects only because of an ignored member (a
  number out of `f64` range such as `"x":1e400`, or a lone surrogate
  escape such as `"x":"\ud800"`) is admitted by the source but has no
  parsed view here and gets "hello required".
- Strings.SystemJson, Strings.PresenceJson: assume serde_json's default
  sorted object keys (`msg` and `online` before `type`). The crate
  features that would change this are not part of this model.
- Strings.Lower: lower-cases ASCII letters only; Rust's `to_lowercase` is
  full Unicode. Idempotence and "no upper-case ASCII letter left" hold
  for both. Keeping the length and mapping character by character hold
  only here: `to_lowercase` turns 'İ' (U+0130) into two characters. A
  name with a non-ASCII capital, such as "Ärne", is registered under
  "Ärne" here but under "ärne" by the source (src/ws.rs:93). The echo
  key of src/ws.rs:136 and 163 differs the same way.
- Logging (`println!`) and the `echoed` flag, which only feeds a log line,
  are left out.
- UUID generation is not modelled: the new token's UUID is a parameter,
  and nothing requires it to be fresh.
- Request-body rejections by axum's `Json` extractor happen before the
  handlers run and are not modelled.
- The `USERS` table of bcrypt placeholders (src/auth.rs:9-16) is never
  consulted by the code, so it is not modelled.
- `user_keys` (src/state.rs:24) is created but never used by the relay.
  Only its creation is modelled.
- The crypto module, src/ipfs.rs with `ipfs_add`, src/main.rs with the
  `routes()` router and the static pages, and the browser code are not
  part of this model.

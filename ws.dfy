/**
 * The session-gated relay of src/ws.rs. One connection runs `HandleSocket`:
 * the hello handshake and token check, admission into the shared registry
 * under the lower-cased username with a presence and a join broadcast, the
 * receive loop that relays `ciphertext` and `plaintext` envelopes verbatim,
 * and the removal of the registry key with a second presence broadcast.
 * Each step (`Handshake`, `HandleFrame`, `Cleanup`) is atomic; steps of
 * different connections may interleave between them.
 */
module Ws {
  import opened Wrappers
  import opened Json
  import opened Strings
  import opened State
  import opened Auth

  // The fixed notices, written as literal text in the source.
  const HelloRequired: string := "{\"type\":\"system\",\"msg\":\"hello required\"}"
  const InvalidToken: string := "{\"type\":\"system\",\"msg\":\"invalid token\"}"
  const UnknownToken: string := "{\"type\":\"system\",\"msg\":\"unknown token\"}"
  const InvalidFormat: string := "{\"type\":\"system\",\"msg\":\"invalid message format\"}"

  /** The join notice broadcast after admission. For a name of plain
      characters it is the name followed by " connected", in the `msg`
      member. */
  function JoinNotice(uname: string): (r: string)
    ensures Plain(uname) ==> r == "{\"msg\":" + "\"" + (uname + " connected") + "\"" + ",\"type\":\"system\"}"
  {
    assert Plain(" connected");
    PlainConcat(uname, " connected");
    SystemJson(uname + " connected")
  }

  /** A WebSocket message. A text frame carries its raw text and what
      `serde_json::from_str::<Value>` made of it (`None`: not JSON). */
  datatype Frame =
    | Text(raw: string, parsed: Option<Json>)
    | Binary(bytes: seq<bv8>)
    | Ping(bytes: seq<bv8>)
    | Pong(bytes: seq<bv8>)
    | Close

  /** One item of the receive stream: a message, or a transport error. The
      end of the stream is the end of the sequence. */
  datatype Incoming = Received(frame: Frame) | Failed

  function First(incoming: seq<Incoming>): Option<Incoming> {
    if incoming == [] then None else Some(incoming[0])
  }

  // ---------------------------------------------------------------------
  // Handshake

  /** The hello a first stream item carries: a received text frame that
      decodes as `Hello` and whose `type` is exactly "hello". */
  function FirstHello(first: Option<Incoming>): (h: Option<Hello>)
    ensures h.Some? <==>
      && first.Some? && first.value.Received? && first.value.frame.Text?
      && first.value.frame.parsed.Some?
      && DecodeHello(first.value.frame.parsed.value).Some?
      && DecodeHello(first.value.frame.parsed.value).value.kind == "hello"
    ensures h.Some? ==> h == DecodeHello(first.value.frame.parsed.value)
  {
    match first
    case Some(Received(Text(_, Some(v)))) =>
      (match DecodeHello(v)
       case Some(hello) => if hello.kind == "hello" then Some(hello) else None
       case None => None)
    case _ => None
  }

  datatype Verdict = Rejected(notice: string) | Admitted(uname: string)

  /** The outcome of the handshake against the token map. */
  function Authenticate(tokens: map<string, string>, first: Option<Incoming>): (v: Verdict)
    ensures FirstHello(first).None? ==> v == Rejected(HelloRequired)
    ensures FirstHello(first).Some? && FirstHello(first).value.token !in tokens ==>
      v == Rejected(UnknownToken)
    ensures (FirstHello(first).Some? && FirstHello(first).value.token in tokens
             && tokens[FirstHello(first).value.token] != FirstHello(first).value.username) ==>
      v == Rejected(InvalidToken)
    ensures v.Admitted? <==>
      FirstHello(first).Some?
      && Lookup(tokens, FirstHello(first).value.token) == Some(FirstHello(first).value.username)
    ensures v.Admitted? ==> v.uname == Lower(FirstHello(first).value.username)
  {
    match FirstHello(first)
    case None => Rejected(HelloRequired)
    case Some(h) =>
      match Lookup(tokens, h.token)
      case None => Rejected(UnknownToken)
      case Some(expected) =>
        if expected != h.username then Rejected(InvalidToken) else Admitted(Lower(h.username))
  }

  // ---------------------------------------------------------------------
  // Frame classification and routing

  /** What the receive loop does with one frame. */
  datatype Action =
    | Malformed                       // reply "invalid message format" to the sender
    | Route(to: string, from: string) // relay the raw text to `to` and to `Lower(from)`
    | Ignore

  /** The decision of the receive loop for one frame. */
  function Classify(f: Frame): (a: Action)
    ensures !f.Text? ==> a == Ignore
    ensures a == Malformed <==> f.Text? && f.parsed.None?
    ensures a.Route? ==>
      && f.Text? && f.parsed.Some?
      && (Kind(f.parsed.value) == Some("ciphertext") || Kind(f.parsed.value) == Some("plaintext"))
      && StrField(f.parsed.value, "to") == Some(a.to)
      && a.from == StrField(f.parsed.value, "from").GetOr("")
    ensures (f.Text? && f.parsed.Some? && Kind(f.parsed.value) != Some("ciphertext")
             && Kind(f.parsed.value) != Some("plaintext")) ==> a == Ignore
  {
    match f
    case Text(_, None) => Malformed
    case Text(_, Some(v)) =>
      (match Kind(v)
       case Some("ciphertext") =>
         (match StrField(v, "to")
          case Some(to) => Route(to, StrField(v, "from").GetOr(""))
          case None => Ignore)
       case Some("plaintext") =>
         (match DecodeForwardMsg(v.fields)
          case Some(fm) => if fm.to.Some? then Route(fm.to.value, fm.from) else Ignore
          case None => Ignore)
       case _ => Ignore)
    case _ => Ignore
  }

  /** A `ciphertext` envelope is relayed exactly when its `to` is a string. */
  lemma CiphertextRoutedIffStringTo(raw: string, v: Json)
    requires Kind(v) == Some("ciphertext")
    ensures Classify(Text(raw, Some(v))).Route? <==> StrField(v, "to").Some?
  {
  }

  /** A `plaintext` envelope is relayed exactly when it decodes as
      `ForwardMsg` and its `to` is neither absent nor null. */
  lemma PlaintextRoutedIffDecodesWithTo(raw: string, v: Json)
    requires Kind(v) == Some("plaintext")
    ensures v.Object?
    ensures Classify(Text(raw, Some(v))).Route? <==>
      DecodeForwardMsg(v.fields).Some? && DecodeForwardMsg(v.fields).value.to.Some?
  {
  }

  /** How many times channel `c` receives a routed envelope: once as the
      entry of `to`, once as the entry of `Lower(from)`. */
  function Hits(entries: map<string, ConnId>, to: string, from: string, c: ConnId): nat {
    (if to in entries && entries[to] == c then 1 else 0)
    + (if Lower(from) in entries && entries[Lower(from)] == c then 1 else 0)
  }

  /** What channel `c` receives when connection `self` handles frame `f`. */
  function Delivered(entries: map<string, ConnId>, self: ConnId, f: Frame, c: ConnId): seq<string> {
    match Classify(f)
    case Malformed => if c == self then [InvalidFormat] else []
    case Ignore => []
    case Route(to, from) => Repeat(f.raw, Hits(entries, to, from, c))
  }

  /** What channel `c` receives while the stream items `incoming[1..n]`
      (those after the hello) are handled; a transport error contributes
      nothing. */
  function Traffic(entries: map<string, ConnId>, self: ConnId, incoming: seq<Incoming>, n: nat, c: ConnId): seq<string>
    requires n <= |incoming|
  {
    if n <= 1 then []
    else
      Traffic(entries, self, incoming, n - 1, c)
      + (match incoming[n - 1]
         case Received(f) => Delivered(entries, self, f, c)
         case Failed => [])
  }

  /** An envelope addressed by the sender to its own registry key reaches
      that channel twice. */
  lemma SelfAddressedArrivesTwice(entries: map<string, ConnId>, to: string, from: string)
    requires to in entries && to == Lower(from)
    ensures Hits(entries, to, from, entries[to]) == 2
  {
  }

  /** Registry keys are lower-case, and `to` is looked up as sent, so a
      `to` with a capital letter never reaches anyone. */
  lemma CapitalisedTargetMisses(entries: map<string, ConnId>, to: string, from: string, c: ConnId)
    requires Normalised(entries)
    requires Lower(to) != to
    ensures Hits(entries, to, from, c) == if Lower(from) in entries && entries[Lower(from)] == c then 1 else 0
  {
  }

  /** Every registry key is its own lower-cased form. */
  ghost predicate Normalised(entries: map<string, ConnId>) {
    forall k :: k in entries ==> Lower(k) == k
  }

  /** Admission under a lower-cased name keeps the registry normalised. */
  lemma {:induction false} AdmissionKeepsNormalised(entries: map<string, ConnId>, username: string, c: ConnId)
    requires Normalised(entries)
    ensures Normalised(entries[Lower(username) := c])
  {
    LowerIdempotent(username);
  }

  /** A registry with lower-case keys and distinct channels. */
  ghost predicate WellFormed(entries: map<string, ConnId>) {
    Injective(entries) && Normalised(entries)
  }

  /** Admitting a connection whose channel is not registered yet keeps the
      registry well formed, and every registered channel, the new one
      included, then receives each broadcast exactly once. */
  lemma AdmissionKeepsWellFormed(entries: map<string, ConnId>, username: string, self: ConnId, msg: string,
                                  after: map<string, ConnId>)
    requires WellFormed(entries) && self !in entries.Values
    requires after == entries[Lower(username) := self]
    ensures WellFormed(after)
    ensures self in after.Values
    ensures forall c :: Repeat(msg, |Holders(after, c)|) == if c in after.Values then [msg] else []
  {
    AdmissionKeepsNormalised(entries, username, self);
    InsertKeepsInjective(entries, Lower(username), self);
    assert after[Lower(username)] == self;
    forall c ensures Repeat(msg, |Holders(after, c)|) == if c in after.Values then [msg] else [] {
      HoldersOfInjective(after, c);
      assert Repeat(msg, 1) == [msg];
    }
  }

  /** Removing a key keeps the registry well formed, and every channel
      still registered receives each broadcast exactly once. */
  lemma RemovalKeepsWellFormed(entries: map<string, ConnId>, uname: string, msg: string)
    requires WellFormed(entries)
    ensures WellFormed(entries - {uname})
    ensures forall c :: Repeat(msg, |Holders(entries - {uname}, c)|)
                        == if c in (entries - {uname}).Values then [msg] else []
  {
    var after := entries - {uname};
    assert Injective(after);
    forall c ensures Repeat(msg, |Holders(after, c)|) == if c in after.Values then [msg] else [] {
      HoldersOfInjective(after, c);
      assert Repeat(msg, 1) == [msg];
    }
  }

  // ---------------------------------------------------------------------
  // Presence

  predicate NoDup(s: seq<string>) {
    forall i, j :: 0 <= i < j < |s| ==> s[i] != s[j]
  }

  /** `online` lists every element of `keys` once, in some order. */
  predicate IsEnumeration(online: seq<string>, keys: set<string>) {
    && (forall x :: x in online ==> x in keys)
    && (forall x :: x in keys ==> x in online)
    && NoDup(online)
  }

  /** An enumeration has as many elements as the set. */
  lemma {:induction false} EnumerationSize(online: seq<string>, keys: set<string>)
    requires IsEnumeration(online, keys)
    ensures |online| == |keys|
  {
    if online == [] {
      assert keys == {};
    } else {
      var rest := online[1..];
      assert forall i :: 0 <= i < |rest| ==> rest[i] == online[i + 1];
      assert online == [online[0]] + rest;
      assert online[0] !in rest;
      assert IsEnumeration(rest, keys - {online[0]});
      EnumerationSize(rest, keys - {online[0]});
    }
  }

  /** `clients.keys().cloned().collect()`: the keys, in the map's order. */
  method Enumerate(keys: set<string>) returns (online: seq<string>)
    ensures IsEnumeration(online, keys)
  {
    online := [];
    var rest := keys;
    while rest != {}
      invariant rest <= keys
      invariant forall x :: x in online <==> x in keys && x !in rest
      invariant NoDup(online)
      decreases rest
    {
      var k :| k in rest;
      online := online + [k];
      rest := rest - {k};
    }
  }

  /** One send of a broadcast, seen from channel `c`: it gains `msg`
      exactly when it is the entry of the key just visited. */
  lemma FanoutStep(entries: map<string, ConnId>, rest: set<string>, k: string, c: ConnId, msg: string,
                   start: seq<string>, before: seq<string>, after: seq<string>)
    requires k in rest && k in entries
    requires before == start + Repeat(msg, |Holders(entries, c) - rest|)
    requires after == if entries[k] == c then before + [msg] else before
    ensures after == start + Repeat(msg, |Holders(entries, c) - (rest - {k})|)
  {
    HoldersStep(entries, rest, k, c);
  }

  /** `broadcast_json`: `msg` is sent once on the channel of every registry
      entry, in the map's order; a channel held by several keys gets it
      once per key. */
  method BroadcastJson(clients: ClientsMap, net: Channels, msg: string)
    modifies net
    ensures forall c :: net.Queue(c) == old(net.Queue(c)) + Repeat(msg, |Holders(clients.entries, c)|)
  {
    var entries := clients.entries;
    var rest := entries.Keys;
    while rest != {}
      invariant rest <= entries.Keys
      invariant forall c :: net.Queue(c) == old(net.Queue(c)) + Repeat(msg, |Holders(entries, c) - rest|)
      decreases rest
    {
      var k :| k in rest;
      label before:
      net.Send(entries[k], msg);
      forall c
        ensures net.Queue(c) == old(net.Queue(c)) + Repeat(msg, |Holders(entries, c) - (rest - {k})|)
      {
        FanoutStep(entries, rest, k, c, msg, old(net.Queue(c)), old@before(net.Queue(c)), net.Queue(c));
      }
      rest := rest - {k};
    }
    assert forall c :: Holders(entries, c) - {} == Holders(entries, c);
  }

  /** `broadcast_presence`: the snapshot `online` of the registry keys is
      sent to every registered channel. */
  method BroadcastPresence(clients: ClientsMap, net: Channels) returns (online: seq<string>)
    modifies net
    ensures IsEnumeration(online, clients.entries.Keys)
    ensures forall c :: net.Queue(c) == old(net.Queue(c)) + Repeat(PresenceJson(online), |Holders(clients.entries, c)|)
  {
    online := Enumerate(clients.entries.Keys);
    BroadcastJson(clients, net, PresenceJson(online));
  }

  // ---------------------------------------------------------------------
  // The connection's steps

  /** The hello handshake on the first stream item. A rejection sends its
      notice on the connection's own channel only and leaves the registry
      alone. An admission registers `self` under the lower-cased username
      (replacing any earlier entry), then every registered channel gets the
      presence snapshot and then the join notice. */
  method Handshake(state: AppState, net: Channels, self: ConnId, first: Option<Incoming>)
    returns (verdict: Verdict, online: seq<string>)
    modifies state.clients, net
    ensures verdict == Authenticate(old(state.tokens.bindings), first)
    ensures verdict.Rejected? ==>
      && state.clients.entries == old(state.clients.entries)
      && (forall c :: net.Queue(c) == old(net.Queue(c)) + (if c == self then [verdict.notice] else []))
    ensures verdict.Admitted? ==>
      && state.clients.entries == old(state.clients.entries)[verdict.uname := self]
      && IsEnumeration(online, state.clients.entries.Keys)
      && (forall c :: net.Queue(c) == old(net.Queue(c))
            + Repeat(PresenceJson(online), |Holders(state.clients.entries, c)|)
            + Repeat(JoinNotice(verdict.uname), |Holders(state.clients.entries, c)|))
  {
    online := [];
    var hello := FirstHello(first);
    if hello.None? {
      net.Send(self, HelloRequired);
      verdict := Rejected(HelloRequired);
      return;
    }
    var h := hello.value;
    var expected := UsernameForToken(state.tokens, h.token);
    if expected.Some? {
      if expected.value != h.username {
        net.Send(self, InvalidToken);
        verdict := Rejected(InvalidToken);
        return;
      }
    } else {
      net.Send(self, UnknownToken);
      verdict := Rejected(UnknownToken);
      return;
    }
    var uname := Lower(h.username);
    state.clients.entries := state.clients.entries[uname := self];
    online := BroadcastPresence(state.clients, net);
    BroadcastJson(state.clients, net, JoinNotice(uname));
    verdict := Admitted(uname);
  }

  /** The routing block shared by both envelope kinds: the raw text goes to
      the entry of `to`, if any, and then to the entry of `Lower(from)`, if
      any. */
  method Forward(clients: ClientsMap, net: Channels, txt: string, to: string, from: string)
    modifies net
    ensures forall c :: net.Queue(c) == old(net.Queue(c)) + Repeat(txt, Hits(clients.entries, to, from, c))
  {
    if to in clients.entries {
      net.Send(clients.entries[to], txt);
    }
    var fromLc := Lower(from);
    if fromLc in clients.entries {
      net.Send(clients.entries[fromLc], txt);
    }
    assert Repeat(txt, 1) == [txt];
    assert Repeat(txt, 2) == [txt, txt];
  }

  /** One turn of the receive loop. The registry is not changed. */
  method HandleFrame(state: AppState, net: Channels, self: ConnId, f: Frame)
    modifies net
    ensures forall c :: net.Queue(c) == old(net.Queue(c)) + Delivered(state.clients.entries, self, f, c)
  {
    match f
    case Text(txt, parsed) =>
      if parsed.None? {
        net.Send(self, InvalidFormat);
      } else {
        var v := parsed.value;
        var kind := Kind(v);
        if kind == Some("ciphertext") {
          var to := StrField(v, "to");
          var from := StrField(v, "from").GetOr("");
          if to.Some? {
            Forward(state.clients, net, txt, to.value, from);
          }
        } else if kind == Some("plaintext") {
          var fm := DecodeForwardMsg(v.fields);
          if fm.Some? && fm.value.to.Some? {
            Forward(state.clients, net, txt, fm.value.to.value, fm.value.from);
          }
        }
      }
    case _ =>
  }

  /** Leaving: the key `uname` is removed, whichever channel it holds by
      now, and the remaining channels get the new presence snapshot. */
  method Cleanup(state: AppState, net: Channels, uname: string) returns (online: seq<string>)
    modifies state.clients, net
    ensures state.clients.entries == old(state.clients.entries) - {uname}
    ensures IsEnumeration(online, state.clients.entries.Keys)
    ensures forall c ::
              net.Queue(c) == old(net.Queue(c)) + Repeat(PresenceJson(online), |Holders(state.clients.entries, c)|)
  {
    state.clients.entries := state.clients.entries - {uname};
    online := BroadcastPresence(state.clients, net);
  }

  /** `handle_socket` for a connection whose channel is `self`, run without
      interleaving. After a rejection only the notice was sent, on `self`.
      After an admission the loop handled the `handled` frames that follow
      the hello, up to the end of the stream or the first transport error,
      and then removed the key again. */
  method HandleSocket(state: AppState, net: Channels, self: ConnId, incoming: seq<Incoming>)
    returns (verdict: Verdict, handled: nat, joined: seq<string>, left: seq<string>)
    modifies state.clients, net
    ensures verdict == Authenticate(old(state.tokens.bindings), First(incoming))
    ensures verdict.Rejected? ==>
      && handled == 0
      && state.clients.entries == old(state.clients.entries)
      && (forall c :: net.Queue(c) == old(net.Queue(c)) + (if c == self then [verdict.notice] else []))
    ensures verdict.Admitted? ==>
      && 1 + handled <= |incoming|
      && (forall j :: 1 <= j <= handled ==> incoming[j].Received?)
      && (1 + handled == |incoming| || incoming[1 + handled].Failed?)
    ensures verdict.Admitted? ==>
      var during := old(state.clients.entries)[verdict.uname := self];
      && state.clients.entries == old(state.clients.entries) - {verdict.uname}
      && IsEnumeration(joined, during.Keys)
      && IsEnumeration(left, state.clients.entries.Keys)
      && (forall c :: net.Queue(c) == old(net.Queue(c))
            + Repeat(PresenceJson(joined), |Holders(during, c)|)
            + Repeat(JoinNotice(verdict.uname), |Holders(during, c)|)
            + Traffic(during, self, incoming, 1 + handled, c)
            + Repeat(PresenceJson(left), |Holders(state.clients.entries, c)|))
  {
    handled, left := 0, [];
    verdict, joined := Handshake(state, net, self, First(incoming));
    if verdict.Rejected? {
      return;
    }
    label admitted:
    handled := ReceiveLoop(state, net, self, incoming);
    label looped:
    left := Cleanup(state, net, verdict.uname);
    ghost var during := old(state.clients.entries)[verdict.uname := self];
    forall c
      ensures net.Queue(c) == old(net.Queue(c))
                + Repeat(PresenceJson(joined), |Holders(during, c)|)
                + Repeat(JoinNotice(verdict.uname), |Holders(during, c)|)
                + Traffic(during, self, incoming, 1 + handled, c)
                + Repeat(PresenceJson(left), |Holders(state.clients.entries, c)|)
    {
      assert old@admitted(net.Queue(c)) == old(net.Queue(c))
        + Repeat(PresenceJson(joined), |Holders(during, c)|)
        + Repeat(JoinNotice(verdict.uname), |Holders(during, c)|);
      assert old@looped(net.Queue(c)) == old@admitted(net.Queue(c)) + Traffic(during, self, incoming, 1 + handled, c);
    }
  }

  /** `while let Some(Ok(msg)) = receiver.next()`: handles the frames after
      the hello until the stream ends or yields an error, and reports how
      many it handled. The registry is not changed. */
  method ReceiveLoop(state: AppState, net: Channels, self: ConnId, incoming: seq<Incoming>) returns (handled: nat)
    requires 1 <= |incoming|
    modifies net
    ensures 1 + handled <= |incoming|
    ensures forall j :: 1 <= j <= handled ==> incoming[j].Received?
    ensures 1 + handled == |incoming| || incoming[1 + handled].Failed?
    ensures forall c :: net.Queue(c) ==
              old(net.Queue(c)) + Traffic(state.clients.entries, self, incoming, 1 + handled, c)
  {
    ghost var entries := state.clients.entries;
    ghost var start := net.outbox;
    handled := 0;
    while 1 + handled < |incoming| && incoming[1 + handled].Received?
      invariant 1 + handled <= |incoming|
      invariant forall j :: 1 <= j <= handled ==> incoming[j].Received?
      invariant forall c :: net.Queue(c) == QueueIn(start, c) + Traffic(entries, self, incoming, 1 + handled, c)
      decreases |incoming| - handled
    {
      ghost var before := net.outbox;
      HandleFrame(state, net, self, incoming[1 + handled].frame);
      forall c
        ensures net.Queue(c) == QueueIn(start, c) + Traffic(entries, self, incoming, 1 + (handled + 1), c)
      {
        TrafficStep(entries, self, incoming, 1 + handled, c, QueueIn(start, c), QueueIn(before, c), net.Queue(c));
      }
      handled := handled + 1;
    }
  }

  /** One turn of the receive loop, seen from channel `c`. */
  lemma TrafficStep(entries: map<string, ConnId>, self: ConnId, incoming: seq<Incoming>, i: nat, c: ConnId,
                    start: seq<string>, before: seq<string>, after: seq<string>)
    requires 1 <= i < |incoming| && incoming[i].Received?
    requires before == start + Traffic(entries, self, incoming, i, c)
    requires after == before + Delivered(entries, self, incoming[i].frame, c)
    ensures after == start + Traffic(entries, self, incoming, i + 1, c)
  {
  }
}

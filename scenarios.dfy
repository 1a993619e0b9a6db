/**
 * End-to-end behaviour of the relay, composed from the steps of src/ws.rs,
 * src/auth.rs and src/state.rs.
 */
module Scenarios {
  import opened Wrappers
  import opened Json
  import opened Strings
  import opened State
  import opened Auth
  import opened Ws

  /** A first frame carrying `{"type":"hello","username":u,"token":t}`.
      The handshake reads only the parsed view; the raw text beside it is
      the JSON this view comes from when `u` and `t` are `Plain`, and is
      illustrative otherwise. */
  function HelloItem(u: string, t: string): Incoming {
    Received(Text("{\"type\":\"hello\",\"username\":\"" + u + "\",\"token\":\"" + t + "\"}",
                  Some(Object(map["type" := Str("hello"), "username" := Str(u), "token" := Str(t)]))))
  }

  /** A token issued at login admits a hello that repeats the username as
      typed, under its lower-cased form. */
  lemma LoginThenHelloAdmits(tokens: map<string, string>, uuid: string, username: string, first: Option<Incoming>)
    requires FirstHello(first) == Some(Hello("hello", username, uuid))
    ensures Authenticate(Issued(tokens, uuid, username), first) == Admitted(Lower(username))
  {
  }

  /** A hello whose token is bound to exactly its username is admitted. */
  lemma HelloItemAdmits(tokens: map<string, string>, u: string, t: string)
    requires t in tokens && tokens[t] == u
    ensures Authenticate(tokens, Some(HelloItem(u, t))) == Admitted(Lower(u))
  {
    assert FirstHello(Some(HelloItem(u, t))) == Some(Hello("hello", u, t));
  }

  /** Two logins as "alice" give two tokens, and a hello with either is
      admitted under the same key. */
  lemma AliceHellosAdmitted(tokens: map<string, string>, t1: string, t2: string)
    requires t1 in tokens && tokens[t1] == "alice"
    requires t2 in tokens && tokens[t2] == "alice"
    ensures Authenticate(tokens, Some(HelloItem("alice", t1))) == Admitted("alice")
    ensures Authenticate(tokens, Some(HelloItem("alice", t2))) == Admitted("alice")
  {
    HelloItemAdmits(tokens, "alice", t1);
    HelloItemAdmits(tokens, "alice", t2);
    assert Lower("alice") == "alice";
  }

  /** With a token map that logins built, a connection is only ever
      admitted as "alice" or "bob": the hello must repeat the login name
      exactly, and both names are already lower-case. */
  lemma OnlyDemoNamesAdmitted(tokens: map<string, string>, first: Option<Incoming>)
    requires BoundToDemoUsers(tokens)
    ensures Authenticate(tokens, first).Admitted? ==> Authenticate(tokens, first).uname in DemoPasswords
  {
    assert Lower("alice") == "alice" && Lower("bob") == "bob";
  }

  /** The comparison of token owner and hello username is exact: a token
      issued to "alice" does not admit a hello from "Alice". */
  lemma TokenOwnerComparedCaseSensitively(tokens: map<string, string>, t: string)
    requires t in tokens && tokens[t] == "alice"
    ensures Authenticate(tokens, Some(HelloItem("Alice", t))) == Rejected(InvalidToken)
  {
    assert FirstHello(Some(HelloItem("Alice", t))) == Some(Hello("hello", "Alice", t));
  }

  /** `{"type":"plaintext","from":"alice","to":"bob","data":"hi"}` */
  const PlainHi: Json :=
    Object(map["type" := Str("plaintext"), "from" := Str("alice"), "to" := Str("bob"), "data" := Str("hi")])

  /** With "alice" and "bob" registered on distinct channels, alice's
      plaintext to bob reaches bob's channel and alice's own, each once and
      byte for byte, and no other channel. */
  lemma AliceToBob(entries: map<string, ConnId>, a: ConnId, b: ConnId, raw: string, c: ConnId)
    requires entries == map["alice" := a, "bob" := b] && a != b
    ensures Delivered(entries, a, Text(raw, Some(PlainHi)), c) == if c == a || c == b then [raw] else []
  {
    PlainHiRoutedToBob(raw);
    assert Lower("alice") == "alice";
    assert Hits(entries, "bob", "alice", c) == if c == a || c == b then 1 else 0;
    assert Repeat(raw, 1) == [raw];
  }

  /** The envelope decodes as a `ForwardMsg` from "alice" to "bob". */
  lemma PlainHiRoutedToBob(raw: string)
    ensures Classify(Text(raw, Some(PlainHi))) == Route("bob", "alice")
  {
    assert DecodeForwardMsg(PlainHi.fields) == Some(ForwardMsg("plaintext", "alice", Some("bob"), Some("hi"), None, None));
  }

  /** Two connections for "alice", on `a` and then on the new channel `b`:
      the second admission replaces the first one's entry, and when the
      first connection leaves it removes the key, so the second, still
      connected, is no longer registered under any name. */
  method ReplacedEntryLostWhenOlderLeaves(state: AppState, net: Channels, a: ConnId, b: ConnId, t1: string, t2: string)
    requires t1 in state.tokens.bindings && state.tokens.bindings[t1] == "alice"
    requires t2 in state.tokens.bindings && state.tokens.bindings[t2] == "alice"
    requires b !in state.clients.entries.Values
    modifies state.clients, net
    ensures "alice" !in state.clients.entries
    ensures state.clients.entries == old(state.clients.entries) - {"alice"}
    ensures b !in state.clients.entries.Values
  {
    ghost var registry := state.clients.entries;
    AliceHellosAdmitted(state.tokens.bindings, t1, t2);
    SameUserConnectsTwice(state, net, a, b, Some(HelloItem("alice", t1)), Some(HelloItem("alice", t2)), "alice");
    var _ := Cleanup(state, net, "alice");
    RemoveAfterReplace(registry, "alice", b);
    assert forall k :: k in state.clients.entries ==> state.clients.entries[k] == registry[k];
  }

  /** Removing a key undoes any earlier replacement of its value: a proof
      step of the scenario above. */
  lemma RemoveAfterReplace(m: map<string, ConnId>, k: string, v: ConnId)
    ensures m[k := v] - {k} == m - {k}
  {
  }

  /** Two hellos admitted under the same key, on channels `a` then `b`:
      the registry ends with that key on `b`, whatever it held before. */
  method SameUserConnectsTwice(state: AppState, net: Channels, a: ConnId, b: ConnId,
                               first1: Option<Incoming>, first2: Option<Incoming>, uname: string)
    requires Authenticate(state.tokens.bindings, first1) == Admitted(uname)
    requires Authenticate(state.tokens.bindings, first2) == Admitted(uname)
    modifies state.clients, net
    ensures state.clients.entries == old(state.clients.entries)[uname := b]
  {
    var _, _ := Handshake(state, net, a, first1);
    var _, _ := Handshake(state, net, b, first2);
  }

  /** A relay whose connections all work on clones of one `AppState` sees
      one registry: an entry added through a clone is in the original. */
  method ClonesShareRegistry(state: AppState, k: string, c: ConnId) returns (clone: AppState)
    modifies state.clients
    ensures clone != state && clone.clients == state.clients
    ensures state.clients.entries == old(state.clients.entries)[k := c]
  {
    clone := state.Clone();
    clone.clients.entries := clone.clients.entries[k := c];
  }
}

/**
 * The shared state of the relay (src/state.rs). Every `Arc<Mutex<HashMap>>`
 * becomes an object holding a map; cloning `AppState` copies the three
 * references, so all clones see the same maps. Each connection's outbound
 * channel (`Tx`, an unbounded mpsc sender) is named by a `ConnId`, and what
 * has been sent on it is recorded in one `Channels` object.
 */
module State {

  /** Names the outbound channel of one connection. */
  type ConnId = nat

  /** `ClientsMap`: lower-cased username -> that connection's channel. */
  class ClientsMap {
    var entries: map<string, ConnId>

    constructor ()
      ensures entries == map[]
    {
      entries := map[];
    }
  }

  /** `TokenMap`: session token -> username, as given at login. */
  class TokenMap {
    var bindings: map<string, string>

    constructor ()
      ensures bindings == map[]
    {
      bindings := map[];
    }
  }

  /** `UserKeys`: a key pair, kept per username. */
  datatype UserKeys = UserKeys(publicKey: seq<bv8>, secretKey: seq<bv8>)

  class UserKeysMap {
    var entries: map<string, UserKeys>

    constructor ()
      ensures entries == map[]
    {
      entries := map[];
    }
  }

  /** `AppState`. The fields are constants: the maps change, the
      references to them never do. */
  class AppState {
    const clients: ClientsMap
    const tokens: TokenMap
    const userKeys: UserKeysMap

    /** `AppState::new`: three fresh, empty maps. */
    constructor ()
      ensures fresh(clients) && fresh(tokens) && fresh(userKeys)
      ensures clients.entries == map[]
      ensures tokens.bindings == map[]
      ensures userKeys.entries == map[]
    {
      clients := new ClientsMap();
      tokens := new TokenMap();
      userKeys := new UserKeysMap();
    }

    /** A state over maps that already exist. */
    constructor Sharing(clients: ClientsMap, tokens: TokenMap, userKeys: UserKeysMap)
      ensures this.clients == clients && this.tokens == tokens && this.userKeys == userKeys
    {
      this.clients := clients;
      this.tokens := tokens;
      this.userKeys := userKeys;
    }

    /** `#[derive(Clone)]`: a new handle on the same three maps. */
    method Clone() returns (c: AppState)
      ensures fresh(c)
      ensures c.clients == clients && c.tokens == tokens && c.userKeys == userKeys
    {
      c := new AppState.Sharing(clients, tokens, userKeys);
    }
  }

  /** Everything sent so far, per channel. A channel is append-only. */
  class Channels {
    var outbox: map<ConnId, seq<string>>

    constructor ()
      ensures outbox == map[]
    {
      outbox := map[];
    }

    /** The messages sent on channel `c`, oldest first. */
    function Queue(c: ConnId): seq<string>
      reads this
    {
      QueueIn(outbox, c)
    }

    /** `tx.send(Message::Text(m))`: appends `m` to channel `c` only. */
    method Send(c: ConnId, m: string)
      modifies this
      ensures Queue(c) == old(Queue(c)) + [m]
      ensures forall d :: d != c ==> Queue(d) == old(Queue(d))
    {
      outbox := outbox[c := Queue(c) + [m]];
    }
  }

  /** Channel `c` of a recorded outbox. */
  function QueueIn(outbox: map<ConnId, seq<string>>, c: ConnId): seq<string> {
    if c in outbox then outbox[c] else []
  }

  /** `n` copies of `m`. */
  function Repeat(m: string, n: nat): (r: seq<string>)
    ensures |r| == n
    ensures forall i :: 0 <= i < n ==> r[i] == m
  {
    if n == 0 then [] else Repeat(m, n - 1) + [m]
  }

  /** The registry keys whose entry is channel `c`. */
  function Holders(entries: map<string, ConnId>, c: ConnId): set<string> {
    set k | k in entries && entries[k] == c
  }

  /** Moving key `k` out of the keys still to visit adds one holder of `c`
      exactly when `k` is one. */
  lemma HoldersStep(entries: map<string, ConnId>, rest: set<string>, k: string, c: ConnId)
    requires k in rest
    ensures |Holders(entries, c) - (rest - {k})|
         == |Holders(entries, c) - rest| + (if k in entries && entries[k] == c then 1 else 0)
  {
    if k in entries && entries[k] == c {
      assert Holders(entries, c) - (rest - {k}) == (Holders(entries, c) - rest) + {k};
    } else {
      assert Holders(entries, c) - (rest - {k}) == Holders(entries, c) - rest;
    }
  }

  /** Each connection registers its own channel, so no channel is the entry
      of two keys. */
  ghost predicate Injective(entries: map<string, ConnId>) {
    forall k, k' :: k in entries && k' in entries && k != k' ==> entries[k] != entries[k']
  }

  /** With distinct channels, a registered channel is the entry of exactly
      one key and an unregistered one of none. */
  lemma HoldersOfInjective(entries: map<string, ConnId>, c: ConnId)
    requires Injective(entries)
    ensures c in entries.Values ==> |Holders(entries, c)| == 1
    ensures c !in entries.Values ==> |Holders(entries, c)| == 0
  {
    if c in entries.Values {
      var k :| k in entries && entries[k] == c;
      assert Holders(entries, c) == {k};
    } else {
      assert Holders(entries, c) == {};
    }
  }

  /** Registering a channel no other key holds keeps the entries distinct,
      whether or not the key replaces an older entry. */
  lemma InsertKeepsInjective(entries: map<string, ConnId>, k: string, c: ConnId)
    requires Injective(entries)
    requires c !in entries.Values
    ensures Injective(entries[k := c])
  {
  }
}

/**
 * The HTTP handlers of src/routes.rs that keep state: the public-key
 * exchange (`post_pubkey`, `get_pubkeys` over the process-wide
 * `KYBER_PUBKEYS` map, here an object passed in) and `login_handler`.
 */
module Routes {
  import opened Wrappers
  import opened State
  import opened Auth

  /** `KYBER_PUBKEYS`: username -> public key, both as the client sent them. */
  class PubKeyStore {
    var keys: map<string, string>

    constructor ()
      ensures keys == map[]
    {
      keys := map[];
    }
  }

  const PubkeyOk: string := "ok"
  const PubkeyMissing: string := "missing username or pubkey"

  /** `payload.get(key).cloned().unwrap_or_default()`. */
  function FieldOrEmpty(payload: map<string, string>, key: string): (r: string)
    ensures key in payload ==> r == payload[key]
    ensures key !in payload ==> r == ""
  {
    if key in payload then payload[key] else ""
  }

  /** Whether a `/pubkey` body names both a user and a key: both fields
      present and non-empty. */
  function PubkeyAccepted(payload: map<string, string>): (ok: bool)
    ensures ok <==>
      && "username" in payload && payload["username"] != ""
      && "pubkey" in payload && payload["pubkey"] != ""
  {
    FieldOrEmpty(payload, "username") != "" && FieldOrEmpty(payload, "pubkey") != ""
  }

  /** `post_pubkey`: stores (overwriting) the key of a non-empty username
      when the key is non-empty as well; otherwise changes nothing. Both
      answers are successful responses; only the text differs. The key of
      every other user is untouched either way. */
  method PostPubkey(store: PubKeyStore, payload: map<string, string>) returns (resp: string)
    modifies store
    ensures PubkeyAccepted(payload) ==>
      && resp == PubkeyOk
      && store.keys == old(store.keys)[payload["username"] := payload["pubkey"]]
    ensures !PubkeyAccepted(payload) ==>
      && resp == PubkeyMissing
      && store.keys == old(store.keys)
    ensures forall u :: u != FieldOrEmpty(payload, "username") ==>
      && (u in store.keys <==> u in old(store.keys))
      && (u in store.keys ==> store.keys[u] == old(store.keys)[u])
  {
    var username := FieldOrEmpty(payload, "username");
    var pubkey := FieldOrEmpty(payload, "pubkey");
    if username != "" && pubkey != "" {
      store.keys := store.keys[username := pubkey];
      resp := PubkeyOk;
    } else {
      resp := PubkeyMissing;
    }
  }

  /** `get_pubkeys`: a copy of the whole store; the store is not changed. */
  method GetPubkeys(store: PubKeyStore) returns (snapshot: map<string, string>)
    ensures snapshot == store.keys
  {
    snapshot := store.keys;
  }

  datatype LoginReq = LoginReq(username: string, password: string)
  datatype LoginResp = LoginResp(ok: bool, token: Option<string>, msg: Option<string>)

  const StatusOk: int := 200
  const StatusUnauthorized: int := 401

  /** `login_handler`: on valid credentials a token made from `uuid` is
      bound to the username as typed and returned with status 200; on
      invalid ones the answer is 401 and the token map is not touched.
      Since only the demo users pass, every token is bound to one of them. */
  method LoginHandler(state: AppState, payload: LoginReq, uuid: string) returns (status: int, resp: LoginResp)
    modifies state.tokens
    ensures VerifyLogin(payload.username, payload.password) ==>
      && status == StatusOk && resp == LoginResp(true, Some(uuid), None)
      && state.tokens.bindings == Issued(old(state.tokens.bindings), uuid, payload.username)
    ensures !VerifyLogin(payload.username, payload.password) ==>
      && status == StatusUnauthorized && resp == LoginResp(false, None, Some("invalid credentials"))
      && state.tokens.bindings == old(state.tokens.bindings)
    ensures BoundToDemoUsers(old(state.tokens.bindings)) ==> BoundToDemoUsers(state.tokens.bindings)
  {
    if VerifyLogin(payload.username, payload.password) {
      var token := CreateTokenForUser(state.tokens, payload.username, uuid);
      status, resp := StatusOk, LoginResp(true, Some(token), None);
    } else {
      status, resp := StatusUnauthorized, LoginResp(false, None, Some("invalid credentials"));
    }
  }
}

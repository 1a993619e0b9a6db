/**
 * The token authority (src/auth.rs): a fixed credential check, and the
 * token map that login fills and the relay's handshake reads. The UUID a
 * token is made from is supplied by the caller.
 */
module Auth {
  import opened Wrappers
  import opened State

  /** The demo credentials, username -> password. (The `USERS` table of
      bcrypt placeholders beside them is never consulted.) */
  const DemoPasswords: map<string, string> := map["alice" := "alice123", "bob" := "bob123"]

  /** `verify_login`: a match on the username, then a plain comparison. */
  function VerifyLogin(username: string, password: string): (ok: bool)
    ensures ok <==> username in DemoPasswords && DemoPasswords[username] == password
  {
    match username
    case "alice" => password == "alice123"
    case "bob" => password == "bob123"
    case _ => false
  }

  /** Only the two demo users can ever log in, whatever the password. */
  lemma OnlyDemoUsersLogIn(username: string, password: string)
    requires VerifyLogin(username, password)
    ensures username == "alice" || username == "bob"
  {
  }

  /** The token map after issuing `token` to `username`: one binding more,
      or a rebinding of a repeated token, and every other binding kept. */
  function Issued(bindings: map<string, string>, token: string, username: string): (r: map<string, string>)
    ensures r.Keys == bindings.Keys + {token}
    ensures r[token] == username
    ensures forall t :: t in bindings && t != token ==> r[t] == bindings[t]
  {
    bindings[token := username]
  }

  /** Every token is bound to one of the demo users. */
  ghost predicate BoundToDemoUsers(bindings: map<string, string>) {
    forall t :: t in bindings ==> bindings[t] in DemoPasswords
  }

  /** A lookup in the token map. */
  function Lookup(bindings: map<string, string>, token: string): (r: Option<string>)
    ensures r.Some? <==> token in bindings
    ensures r.Some? ==> r.value == bindings[token]
  {
    if token in bindings then Some(bindings[token]) else None
  }

  /** `create_token_for_user`: binds the new token to the username exactly
      as given (no lower-casing) and returns the token. */
  method CreateTokenForUser(tokens: TokenMap, username: string, uuid: string) returns (token: string)
    modifies tokens
    ensures token == uuid
    ensures tokens.bindings == Issued(old(tokens.bindings), token, username)
  {
    token := uuid;
    tokens.bindings := tokens.bindings[token := username];
  }

  /** `username_for_token`: a read-only lookup. */
  method UsernameForToken(tokens: TokenMap, token: string) returns (r: Option<string>)
    ensures r == Lookup(tokens.bindings, token)
  {
    if token in tokens.bindings {
      r := Some(tokens.bindings[token]);
    } else {
      r := None;
    }
  }

  /** A freshly issued token resolves to its username. */
  lemma LookupAfterIssue(bindings: map<string, string>, token: string, username: string)
    ensures Lookup(Issued(bindings, token, username), token) == Some(username)
  {
  }

  /** Issuing a token changes no other binding, so earlier tokens of the
      same user stay valid. */
  lemma IssuePreservesOtherTokens(bindings: map<string, string>, token: string, username: string, other: string)
    requires other != token
    ensures Lookup(Issued(bindings, token, username), other) == Lookup(bindings, other)
  {
  }

  /** A token that was never issued resolves to nothing. */
  lemma LookupNeverIssued(bindings: map<string, string>, token: string)
    requires token !in bindings
    ensures Lookup(bindings, token) == None
  {
  }
}

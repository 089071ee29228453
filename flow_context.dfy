/**
 * The execution context of one flow run: the site's authentication
 * settings and the variables steps read in templates and conditions and
 * write by extraction. A new context starts with the bearer token.
 */
module FlowContexts {
  import opened Wrappers
  import opened Dicts
  import opened JsonValues
  import Credentials

  /**
   * The token set-up of a new context: for bearer authentication from a
   * manual entry, the decrypted credential when one is stored, else the
   * stored token or ""; from the environment, the variable named by
   * `envKey` or ""; otherwise no variable. `None` when the set-up raises.
   */
  function InitialVariables(auth: Dict<Json>, decrypt: (Json, Json) -> Option<string>,
                            getenv: string -> Option<string>): (r: Option<Dict<Json>>)
    ensures r.Some? ==> forall k :: k in Keys(r.value) ==> k == "token"
  {
    if Get(auth, "type") == Some(JStr("bearer")) then
      var source := Get(auth, "tokenSource").GetOr(JStr("manual"));
      if source == JStr("manual") then
        var encrypted := Get(auth, "encrypted");
        if encrypted.Some? && PyTruthy(encrypted.value) then
          var e := encrypted.value;
          if e.JObj? && Get(e.fields, "ciphertext").Some? && Get(e.fields, "nonce").Some? then
            var plain := decrypt(Get(e.fields, "ciphertext").value, Get(e.fields, "nonce").value);
            if plain.Some? then Some([("token", JStr(plain.value))]) else None
          else None
        else Some([("token", Get(auth, "token").GetOr(JStr("")))])
      else if source == JStr("env") then
        var envKey := Get(auth, "envKey").GetOr(JStr(""));
        if envKey.JStr? then Some([("token", JStr(getenv(envKey.s).GetOr("")))]) else None
      else Some([])
    else Some([])
  }

  /**
   * The engine's own token set-up and the credential manager's
   * `resolve_secret` agree on every configuration: same token, same
   * failures, and no token where the latter gives `{}`.
   */
  lemma InitialVariablesAgree(auth: Dict<Json>, decrypt: (Json, Json) -> Option<string>,
                              getenv: string -> Option<string>)
    ensures InitialVariables(auth, decrypt, getenv) == Credentials.ResolveSecret(auth, decrypt, getenv)
  {
  }

  class FlowContext {
    const auth: Dict<Json>
    var variables: Dict<Json>

    /** A context whose token set-up gave `initial`. */
    constructor (auth: Dict<Json>, initial: Dict<Json>)
      ensures this.auth == auth && variables == initial
    {
      this.auth := auth;
      variables := initial;
    }
  }
}

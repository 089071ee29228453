/**
 * The credential manager: an AES-GCM key derived from the configured
 * encryption key, and the resolution of a site's authentication settings to
 * the bearer token a flow starts with. The cipher itself, base64 and the
 * process environment are parameters: `decrypt` is the outcome of decrypting
 * a ciphertext with a nonce (`None` when it raises), `getenv` the environment.
 */
module Credentials {
  import opened Wrappers
  import opened Dicts
  import opened JsonValues

  newtype byte = b: int | 0 <= b < 256

  /** AES-256 takes a key of exactly this many bytes. */
  const KeyLength: nat := 32

  /** The byte `ljust` pads with: the character `0`. */
  const Pad: byte := 0x30

  /** The configured key cut or padded to the key length. */
  function NormaliseKey(k: seq<byte>): (r: seq<byte>)
    ensures |r| == KeyLength
    ensures forall i :: 0 <= i < |k| && i < KeyLength ==> r[i] == k[i]
    ensures forall i :: |k| <= i < KeyLength ==> r[i] == Pad
  {
    if |k| < KeyLength then k + seq(KeyLength - |k|, _ => Pad) else k[..KeyLength]
  }

  /** A key of the right length is used as it is, and normalising twice changes nothing more. */
  lemma NormaliseKeyFixed(k: seq<byte>)
    ensures |k| == KeyLength ==> NormaliseKey(k) == k
    ensures NormaliseKey(NormaliseKey(k)) == NormaliseKey(k)
  {
    assert |k| == KeyLength ==> NormaliseKey(k) == k[..KeyLength] == k;
  }

  /**
   * Different configured keys can give the same cipher key: bytes past the
   * key length are ignored, and a short key equals itself followed by `0`.
   */
  lemma NormaliseKeyCollisions(k: seq<byte>, extra: seq<byte>)
    ensures |k| >= KeyLength ==> NormaliseKey(k + extra) == NormaliseKey(k)
    ensures |k| < KeyLength ==> NormaliseKey(k + [Pad]) == NormaliseKey(k)
  {
    if |k| >= KeyLength {
      assert (k + extra)[..KeyLength] == k[..KeyLength];
    }
  }

  class CredentialManager {
    /** The key the cipher is built with. */
    var key: seq<byte>

    /** Derives the cipher key: padded with `0` when short, cut when long. */
    constructor (encryptionKey: seq<byte>)
      ensures key == NormaliseKey(encryptionKey)
    {
      var keyBytes := encryptionKey;
      if |keyBytes| < KeyLength {
        keyBytes := keyBytes + seq(KeyLength - |keyBytes|, _ => Pad);
      } else if |keyBytes| > KeyLength {
        keyBytes := keyBytes[..KeyLength];
      }
      key := keyBytes;
      assert |encryptionKey| == KeyLength ==> encryptionKey[..KeyLength] == encryptionKey;
    }
  }

  /**
   * The token of manually entered bearer authentication: the decryption of
   * `encrypted` when that is truthy (it must be an object with a ciphertext
   * and a nonce), otherwise `token`, or "" when there is none. `None` when
   * the lookup or the decryption raises.
   */
  function ManualToken(auth: Dict<Json>, decrypt: (Json, Json) -> Option<string>): (r: Option<Json>)
    ensures (Get(auth, "encrypted").None? || !PyTruthy(Get(auth, "encrypted").value)) ==>
              r == Some(Get(auth, "token").GetOr(JStr("")))
    ensures r.None? ==> Get(auth, "encrypted").Some? && PyTruthy(Get(auth, "encrypted").value)
  {
    var encrypted := Get(auth, "encrypted");
    if encrypted.Some? && PyTruthy(encrypted.value) then
      var e := encrypted.value;
      if e.JObj? && Get(e.fields, "ciphertext").Some? && Get(e.fields, "nonce").Some? then
        var plain := decrypt(Get(e.fields, "ciphertext").value, Get(e.fields, "nonce").value);
        if plain.Some? then Some(JStr(plain.value)) else None
      else None
    else Some(Get(auth, "token").GetOr(JStr("")))
  }

  /**
   * The token of bearer authentication read from the environment: the
   * variable named by `envKey` (the empty name when missing), or "" when it
   * is unset. `None` when the name is not a string.
   */
  function EnvToken(auth: Dict<Json>, getenv: string -> Option<string>): (r: Option<Json>)
    ensures Get(auth, "envKey").None? ==> r == Some(JStr(getenv("").GetOr("")))
    ensures Get(auth, "envKey").Some? && Get(auth, "envKey").value.JStr? ==>
              r == Some(JStr(getenv(Get(auth, "envKey").value.s).GetOr("")))
  {
    var envKey := Get(auth, "envKey").GetOr(JStr(""));
    if envKey.JStr? then Some(JStr(getenv(envKey.s).GetOr(""))) else None
  }

  /** `auth.get('type') == 'bearer'`. */
  predicate IsBearer(auth: Dict<Json>) {
    Get(auth, "type") == Some(JStr("bearer"))
  }

  /** The token source of bearer authentication, "manual" when missing. */
  function TokenSource(auth: Dict<Json>): Json {
    Get(auth, "tokenSource").GetOr(JStr("manual"))
  }

  /**
   * `resolve_secret`: `{token}` for bearer authentication whose source is
   * manual or the environment, `{}` for every other configuration. `None`
   * when resolving raises.
   */
  function ResolveSecret(auth: Dict<Json>, decrypt: (Json, Json) -> Option<string>,
                         getenv: string -> Option<string>): (r: Option<Dict<Json>>)
    ensures !IsBearer(auth) ==> r == Some([])
    ensures IsBearer(auth) && TokenSource(auth) != JStr("manual") && TokenSource(auth) != JStr("env") ==> r == Some([])
    ensures IsBearer(auth) && TokenSource(auth) == JStr("manual") ==>
              r == (var t := ManualToken(auth, decrypt); if t.Some? then Some([("token", t.value)]) else None)
    ensures IsBearer(auth) && TokenSource(auth) == JStr("env") ==>
              r == (var t := EnvToken(auth, getenv); if t.Some? then Some([("token", t.value)]) else None)
  {
    if Get(auth, "type").GetOr(JStr("none")) == JStr("bearer") then
      var source := TokenSource(auth);
      if source == JStr("manual") then
        var token := ManualToken(auth, decrypt);
        if token.Some? then Some([("token", token.value)]) else None
      else if source == JStr("env") then
        var token := EnvToken(auth, getenv);
        if token.Some? then Some([("token", token.value)]) else None
      else Some([])
    else Some([])
  }

  /**
   * A resolved secret names no key but `token`, and names it exactly for
   * bearer authentication taken from a manual entry or the environment.
   */
  lemma ResolvedKeys(auth: Dict<Json>, decrypt: (Json, Json) -> Option<string>,
                     getenv: string -> Option<string>)
    requires ResolveSecret(auth, decrypt, getenv).Some?
    ensures var d := ResolveSecret(auth, decrypt, getenv).value;
      && (forall k :: k in Keys(d) ==> k == "token")
      && (Get(d, "token").Some? <==>
            IsBearer(auth) && (TokenSource(auth) == JStr("manual") || TokenSource(auth) == JStr("env")))
  {
  }

  /** A plain manual token with nothing encrypted comes back as it was stored. */
  lemma PlainTokenResolved(token: string, decrypt: (Json, Json) -> Option<string>,
                           getenv: string -> Option<string>)
    ensures ResolveSecret([("type", JStr("bearer")), ("token", JStr(token))], decrypt, getenv)
              == Some([("token", JStr(token))])
  {
    var auth: Dict<Json> := [("type", JStr("bearer")), ("token", JStr(token))];
    assert Get(auth, "type") == Some(JStr("bearer"));
    assert Get(auth[1..], "tokenSource") == Get(auth[2..], "tokenSource");
    assert Get(auth, "tokenSource").None?;
    assert Get(auth[1..], "encrypted") == Get(auth[2..], "encrypted");
    assert Get(auth, "encrypted").None?;
    assert Get(auth, "token") == Some(JStr(token));
  }
}

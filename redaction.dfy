/**
 * Redaction of what a step records: sensitive response headers are masked
 * and long response texts are cut.
 */
module Redaction {
  import opened Wrappers
  import opened Dicts
  import Strings

  /** Header names, in lower case, whose values are never recorded. */
  const SensitiveHeaders: seq<string> := ["authorization", "cookie", "x-csrf-token", "x-api-key"]

  /** The mask recorded in place of a sensitive value. */
  const Mask: string := "***"

  /** How much of a response text is recorded by default. */
  const DefaultMaxLength: nat := 500

  predicate IsSensitive(name: string) {
    Strings.Lower(name) in SensitiveHeaders
  }

  /** The recorded value of one header. */
  function RedactValue(name: string, value: string): (r: string)
    ensures IsSensitive(name) ==> r == Mask
    ensures !IsSensitive(name) ==> r == value
  {
    if IsSensitive(name) then Mask else value
  }

  /** The recorded headers: every name kept in place, sensitive values masked. */
  function Redacted(headers: Dict<string>): (r: Dict<string>)
    ensures Keys(r) == Keys(headers)
    ensures forall i :: 0 <= i < |headers| ==> r[i] == (headers[i].0, RedactValue(headers[i].0, headers[i].1))
  {
    var r := seq(|headers|, i requires 0 <= i < |headers| => (headers[i].0, RedactValue(headers[i].0, headers[i].1)));
    assert forall i :: 0 <= i < |headers| ==> r[i].0 == headers[i].0;
    r
  }

  /** `redact_headers`: a fresh dict filled name by name. */
  method RedactHeaders(headers: Dict<string>) returns (redacted: Dict<string>)
    ensures redacted == Redacted(headers)
  {
    redacted := [];
    var i := 0;
    while i < |headers|
      invariant 0 <= i <= |headers|
      invariant |redacted| == i
      invariant forall j :: 0 <= j < i ==> redacted[j] == (headers[j].0, RedactValue(headers[j].0, headers[j].1))
    {
      var (key, value) := headers[i];
      assert key !in Keys(redacted);
      PutAbsent(redacted, key, RedactValue(key, value));
      if Strings.Lower(key) in SensitiveHeaders {
        redacted := Put(redacted, key, Mask);
      } else {
        redacted := Put(redacted, key, value);
      }
      i := i + 1;
    }
  }

  /** Redacting recorded headers again changes nothing. */
  lemma RedactIdempotent(headers: Dict<string>)
    ensures Redacted(Redacted(headers)) == Redacted(headers)
  {
    var r := Redacted(headers);
    assert forall i :: 0 <= i < |r| ==> RedactValue(r[i].0, r[i].1) == r[i].1;
  }

  /** No sensitive value survives, whatever the case of its name; every other value does. */
  lemma RedactedHides(headers: Dict<string>, name: string)
    ensures IsSensitive(name) && Get(headers, name).Some? ==> Get(Redacted(headers), name) == Some(Mask)
    ensures !IsSensitive(name) ==> Get(Redacted(headers), name) == Get(headers, name)
  {
    GetIndexOf(headers, name);
    GetIndexOf(Redacted(headers), name);
    assert IndexOf(Redacted(headers), name) == IndexOf(headers, name) by {
      IndexOfSameKeys(headers, Redacted(headers), name);
    }
  }

  /** Lists with the same keys place every key at the same position. */
  lemma {:induction false} IndexOfSameKeys<V, W>(a: Dict<V>, b: Dict<W>, k: string)
    requires Keys(a) == Keys(b)
    ensures IndexOf(a, k) == IndexOf(b, k)
  {
    if |a| > 0 && a[0].0 != k {
      assert Keys(a[1..]) == Keys(a)[1..];
      assert Keys(b[1..]) == Keys(b)[1..];
      var a': Dict<V> := a[1..];
      var b': Dict<W> := b[1..];
      IndexOfSameKeys(a', b', k);
    }
  }

  /** `redact_response`: "" for an empty text; a text longer than the limit cut to it and marked with `...`. */
  function RedactResponse(text: string, maxLength: nat): (r: string)
    ensures text == "" ==> r == ""
    ensures |text| <= maxLength ==> r == text
    ensures |text| > maxLength ==> r == text[..maxLength] + "..."
  {
    if text == "" then ""
    else if |text| > maxLength then text[..maxLength] + "..."
    else text
  }

  /** A recorded text is never longer than the limit plus the marker, and always starts like the response. */
  lemma RedactResponseBounds(text: string, maxLength: nat)
    ensures |RedactResponse(text, maxLength)| <= maxLength + 3
    ensures var n := if |text| < maxLength then |text| else maxLength;
      RedactResponse(text, maxLength)[..n] == text[..n]
  {
  }
}

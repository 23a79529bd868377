/**
 * The token codec: `serialize` signs the JSON of the session data and marks
 * it with `s:`; `deserialize` checks the mark, verifies and parses.
 */
module Codec {
  import opened Wrappers
  import opened JsValues
  import opened SigningLibrary

  const Prefix: string := "s:"

  /**
   * `/^s:.+/.test(t)`: `s:` followed by at least one character other than a
   * line terminator (no `$` anchor, so only the first needs checking).
   */
  predicate MatchesSignedFormat(t: string)
    ensures MatchesSignedFormat(t) ==> |t| > 2 && Prefix <= t
  {
    |t| >= 3 && t[0] == 's' && t[1] == ':' && !IsLineTerminator(t[2])
  }

  /** The regular expression read literally: the prefix, then a run of non-terminators. */
  ghost predicate RegexMatches(t: string) {
    exists k: nat :: 3 <= k <= |t| && t[..2] == Prefix && NoTerminatorIn(t[2..k])
  }

  ghost predicate NoTerminatorIn(s: string) {
    forall i :: 0 <= i < |s| ==> !IsLineTerminator(s[i])
  }

  /** The three-character test is exactly the regular expression. */
  lemma MatchesSignedFormatIsRegex(t: string)
    ensures MatchesSignedFormat(t) <==> RegexMatches(t)
  {
    if MatchesSignedFormat(t) {
      assert NoTerminatorIn(t[2..3]);
    }
    if RegexMatches(t) {
      var k: nat :| 3 <= k <= |t| && t[..2] == Prefix && NoTerminatorIn(t[2..k]);
      assert t[2] == t[2..k][0];
      assert t[0] == t[..2][0] && t[1] == t[..2][1];
    }
  }

  /** `serialize`: `"s:" + sign(JSON.stringify(data), secret)`. */
  function Serialize(lib: Library, secret: string, data: Value): (r: Result<string, JsError>)
    ensures r.Failure? <==> data.Undefined?
    ensures r.Failure? ==> r.error == SignTypeError
    ensures r.Success? ==> Prefix <= r.value
  {
    match JsonOf(data)
    case None => Failure(SignTypeError)
    case Some(j) => Success(Prefix + lib.sign(lib.stringify(j), secret))
  }

  /**
   * `deserialize` up to the JSON: `Success(None)` where the source returns
   * `null` for a rejected token, `Success(Some(j))` where `JSON.parse`
   * returns `j`, `Failure` where it throws.
   */
  function Decode(lib: Library, secret: string, token: string): (r: Result<Option<Json>, JsError>)
    ensures r.Failure? ==> r.error == ParseSyntaxError
    ensures r == Success(None) <==> !MatchesSignedFormat(token) || lib.unsign(token[2..], secret).None?
    ensures MatchesSignedFormat(token) && lib.unsign(token[2..], secret).Some? ==>
              && (r.Failure? <==> lib.parse(lib.unsign(token[2..], secret).value).None?)
              && (r.Success? ==> r.value == lib.parse(lib.unsign(token[2..], secret).value))
    ensures r.Success? && r.value.Some? ==>
              && MatchesSignedFormat(token)
              && lib.unsign(token[2..], secret).Some?
              && lib.parse(lib.unsign(token[2..], secret).value) == r.value
  {
    if !MatchesSignedFormat(token) then Success(None)
    else
      match lib.unsign(token[2..], secret)
      case None => Success(None)
      case Some(payload) =>
        match lib.parse(payload)
        case None => Failure(ParseSyntaxError)
        case Some(j) => Success(Some(j))
  }

  /**
   * `deserialize`: `null` for a rejected token, otherwise the value
   * `JSON.parse` builds, whose objects get the identity `newId`.
   */
  function Deserialize(lib: Library, secret: string, token: string, newId: nat): (r: Result<Value, JsError>)
    ensures r.Success? ==> !r.value.Undefined?
    ensures r.Failure? <==> Decode(lib, secret, token).Failure?
    ensures Decode(lib, secret, token) == Success(None) ==> r == Success(Null)
    ensures Decode(lib, secret, token).Success? && Decode(lib, secret, token).value.Some? ==>
              r.Success? && JsonOf(r.value) == Decode(lib, secret, token).value
  {
    match Decode(lib, secret, token)
    case Failure(e) => Failure(e)
    case Success(None) => Success(Null)
    case Success(Some(j)) => Success(FromJson(j, newId))
  }

  /**
   * A token without the signed-format mark is rejected as `null` before
   * `unsign` is consulted: the answer is the same whatever the library does.
   */
  lemma RejectsUnmarkedToken(lib: Library, other: Library, secret: string, token: string, newId: nat)
    requires !MatchesSignedFormat(token)
    ensures Deserialize(lib, secret, token, newId) == Success(Null)
    ensures Decode(lib, secret, token) == Decode(other, secret, token)
  {
  }

  /** A token whose signature `unsign` refuses is rejected as `null`. */
  lemma RejectsBadSignature(lib: Library, secret: string, token: string, newId: nat)
    requires MatchesSignedFormat(token)
    requires lib.unsign(token[2..], secret).None?
    ensures Deserialize(lib, secret, token, newId) == Success(Null)
  {
  }

  /**
   * A correctly signed payload that is not JSON is not rejected: the
   * exception of `JSON.parse` escapes.
   */
  lemma MalformedPayloadThrows(lib: Library, secret: string, token: string, newId: nat)
    requires MatchesSignedFormat(token)
    requires lib.unsign(token[2..], secret).Some?
    requires lib.parse(lib.unsign(token[2..], secret).value).None?
    ensures Deserialize(lib, secret, token, newId) == Failure(ParseSyntaxError)
  {
  }

  /** Every token `serialize` produces passes the signed-format test and is longer than the mark. */
  lemma SerializedTokenIsMarked(lib: Library, secret: string, data: Value)
    requires Lawful(lib)
    requires !data.Undefined?
    ensures |Serialize(lib, secret, data).value| > 2
    ensures MatchesSignedFormat(Serialize(lib, secret, data).value)
  {
  }

  /** The round trip at the JSON level: the token decodes to the JSON that was signed. */
  lemma DecodeSerialize(lib: Library, secret: string, data: Value)
    requires Lawful(lib)
    requires !data.Undefined?
    ensures Decode(lib, secret, Serialize(lib, secret, data).value) == Success(JsonOf(data))
  {
  }

  /**
   * `deserialize(serialize(d))` under the same secret: a value with the same
   * JSON as `d`, and `d` itself when `d` is a primitive or `null`.
   */
  lemma RoundTrip(lib: Library, secret: string, data: Value, newId: nat)
    requires Lawful(lib)
    requires !data.Undefined?
    ensures Deserialize(lib, secret, Serialize(lib, secret, data).value, newId).Success?
    ensures JsonOf(Deserialize(lib, secret, Serialize(lib, secret, data).value, newId).value) == JsonOf(data)
    ensures !data.Ref? ==> Deserialize(lib, secret, Serialize(lib, secret, data).value, newId) == Success(data)
  {
  }
}

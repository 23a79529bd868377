/**
 * The library primitives the strategy calls but does not define: `sign` and
 * `unsign` from the cookie-signature package, `JSON.stringify` and
 * `JSON.parse`. They are parameters; `Lawful` states what is assumed of them.
 */
module SigningLibrary {
  import opened Wrappers
  import opened JsValues

  /**
   * `unsign` answers `None` where the library returns `false`; `parse`
   * answers `None` where `JSON.parse` throws.
   */
  datatype Library = Library(
    sign: (string, string) -> string,
    unsign: (string, string) -> Option<string>,
    stringify: Json -> string,
    parse: string -> Option<Json>)

  /** The characters JSON text can begin with. */
  const JsonTextStart: string := "{[\"-0123456789tfn"

  /** The characters a regular expression's `.` does not match. */
  predicate IsLineTerminator(c: char) {
    c == '\n' || c == '\r' || c == '\U{2028}' || c == '\U{2029}'
  }

  /**
   * The assumed laws of the primitives, not proved here:
   * unsigning with the signing secret recovers the signed string; a signed
   * string is the input followed by `.` and the tag; parsing what stringify
   * wrote gives back the same JSON; JSON text is non-empty and starts with
   * one of `JsonTextStart`. The parse law is stated for every `Json`, also
   * objects with repeated keys, which no stored value has.
   */
  ghost predicate Lawful(lib: Library) {
    && (forall v: string, k: string :: lib.unsign(lib.sign(v, k), k) == Some(v))
    && (forall v: string, k: string :: v + "." <= lib.sign(v, k))
    && (forall j: Json :: lib.parse(lib.stringify(j)) == Some(j))
    && (forall j: Json :: |lib.stringify(j)| > 0 && lib.stringify(j)[0] in JsonTextStart)
  }

  /** No character JSON text starts with is a line terminator. */
  lemma JsonTextStartIsNotLineTerminator(c: char)
    requires c in JsonTextStart
    ensures !IsLineTerminator(c)
  {
  }
}

/**
 * The collaborators the core calls but does not define: the header
 * splitter and tag parser, the payload codec, base64url without padding,
 * UTF-8 and JSON. Each is a function-valued field of a record passed in as
 * a parameter, so nothing here fixes how they work; the predicates at the
 * end state the laws the wire-format lemmas assume of them.
 */
module Codecs {
  import opened Wrappers
  import opened ByteArrays
  import opened Paseto

  datatype TextCodecs = TextCodecs(
    split: string -> seq<string>,                // Header.split
    header: (string, string) -> Option<Header>,  // Header(version:purpose:)
    headerString: Header -> string,              // Header.asString
    fromBase64: string -> Option<Bytes>,         // Data(base64UrlNoPad:)
    toBase64: Bytes -> string,                   // Data.base64UrlNoPad
    utf8String: Bytes -> Option<string>,         // Data.utf8String
    utf8Bytes: string -> Bytes)                  // Data(String.utf8)

  /** `P(encoded:)` and `payload.encode` for one payload type `P`. */
  datatype PayloadCodec<!P> = PayloadCodec(decode: string -> Option<P>, encode: P -> string)

  /** What `JSONSerialization.jsonObject(with:) as? [String: String]` can give. */
  datatype JsonObject =
    | Malformed                                  // jsonObject throws
    | NotStringMap                               // parsed, but the cast fails
    | StringMap(claims: map<string, string>)

  /** `JSONSerialization.jsonObject(with:)` and `try? JSONSerialization.data(withJSONObject:)`. */
  datatype Json = Json(parse: Bytes -> JsonObject, serialise: map<string, string> -> Option<Bytes>)

  predicate DotFree(s: string) {
    '.' !in s
  }

  /** Segments joined with `.` separators. */
  function Join(parts: seq<string>): string
    requires |parts| > 0
  {
    if |parts| == 1 then parts[0] else parts[0] + "." + Join(parts[1..])
  }

  /** `Header.split` cuts a token string at every `.`. */
  ghost predicate SplitInvertsJoin(c: TextCodecs) {
    forall parts: seq<string> ::
      |parts| > 0 && (forall i :: 0 <= i < |parts| ==> DotFree(parts[i])) ==>
        c.split(Join(parts)) == parts
  }

  /** A header prints as `version.purpose.` and its two tags parse back to it. */
  ghost predicate HeaderTagged(c: TextCodecs) {
    forall h: Header :: exists v: string, p: string ::
      DotFree(v) && DotFree(p) && c.headerString(h) == v + "." + p + "." && c.header(v, p) == Some(h)
  }

  /** base64url text never holds a `.` and decodes back to its bytes. */
  ghost predicate Base64Inverse(c: TextCodecs) {
    forall b: Bytes :: DotFree(c.toBase64(b)) && c.fromBase64(c.toBase64(b)) == Some(b)
  }

  /** The UTF-8 bytes of a string decode back to that string. */
  ghost predicate Utf8Inverse(c: TextCodecs) {
    forall s: string :: c.utf8String(c.utf8Bytes(s)) == Some(s)
  }

  ghost predicate Lawful(c: TextCodecs) {
    SplitInvertsJoin(c) && HeaderTagged(c) && Base64Inverse(c) && Utf8Inverse(c)
  }

  /** An encoded payload holds no `.` and decodes back to the payload. */
  ghost predicate PayloadInverse<P(!new)>(pc: PayloadCodec<P>) {
    forall p: P :: DotFree(pc.encode(p)) && pc.decode(pc.encode(p)) == Some(p)
  }

  /** Serialised claims parse back as the same flat string map. */
  ghost predicate JsonInverse(json: Json) {
    forall claims: map<string, string> ::
      json.serialise(claims).Some? ==> json.parse(json.serialise(claims).value) == StringMap(claims)
  }

  lemma {:induction false} JoinThree(a: string, b: string, c: string)
    ensures Join([a, b, c]) == a + "." + b + "." + c
  {
    assert [a, b, c][1..] == [b, c];
    assert [b, c][1..] == [c];
    assert Join([b, c]) == b + "." + c;
    assert Join([a, b, c]) == a + "." + (b + "." + c);
  }

  lemma {:induction false} JoinFour(a: string, b: string, c: string, d: string)
    ensures Join([a, b, c, d]) == a + "." + b + "." + c + "." + d
  {
    assert [a, b, c, d][1..] == [b, c, d];
    JoinThree(b, c, d);
    assert Join([a, b, c, d]) == a + "." + (b + "." + c + "." + d);
  }
}

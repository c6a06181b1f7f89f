/**
 * The wire format `header.payload[.footer]`: a header, a payload of the
 * version's type `P` and raw footer bytes, parsed from and printed to the
 * dot-separated token string.
 */
module Blobs {
  import opened Wrappers
  import opened ByteArrays
  import opened Paseto
  import opened Codecs
  import Tokens

  datatype Blob<P> = Blob(header: Header, payload: P, footer: Bytes)

  /** `init(header:payload:footer:)`; the footer defaults to no bytes. */
  function Init<P>(header: Header, payload: P, footer: Bytes := []): (b: Blob<P>)
    ensures b.header == header && b.payload == payload && b.footer == footer
  {
    Blob(header, payload, footer)
  }

  /** The footer of a four-segment token: its base64url decoding, or empty. */
  function FooterOrEmpty(decoded: Option<Bytes>): Bytes {
    match decoded
    case Some(footer) => footer
    case None => []
  }

  /** The failable `init?(_ string:)`. */
  function Parse<P>(s: string, c: TextCodecs, pc: PayloadCodec<P>): (r: Option<Blob<P>>)
    ensures r.Some? <==>
      var parts := c.split(s);
      (|parts| == 3 || |parts| == 4) && c.header(parts[0], parts[1]).Some? && pc.decode(parts[2]).Some?
    ensures r.Some? ==>
      var parts := c.split(s);
      && Some(r.value.header) == c.header(parts[0], parts[1])
      && Some(r.value.payload) == pc.decode(parts[2])
      && (|parts| == 3 ==> r.value.footer == [])
      && (|parts| == 4 && c.fromBase64(parts[3]).None? ==> r.value.footer == [])
      && (|parts| == 4 && c.fromBase64(parts[3]).Some? ==> r.value.footer == c.fromBase64(parts[3]).value)
  {
    var parts := c.split(s);
    if |parts| != 3 && |parts| != 4 then None
    else
      match (c.header(parts[0], parts[1]), pc.decode(parts[2]))
      case (Some(header), Some(payload)) =>
        var footer := if |parts| > 3 then FooterOrEmpty(c.fromBase64(parts[3])) else [];
        Some(Init(header, payload, footer))
      case _ => None
  }

  /** `asString`: the footer segment is left out when the footer is empty. */
  function AsString<P>(b: Blob<P>, c: TextCodecs, pc: PayloadCodec<P>): (r: string)
    ensures c.headerString(b.header) <= r
    ensures |r| > |c.headerString(b.header) + pc.encode(b.payload)| <==> b.footer != []
  {
    var main := c.headerString(b.header) + pc.encode(b.payload);
    if b.footer == [] then main else main + "." + c.toBase64(b.footer)
  }

  /** `asData`: the UTF-8 bytes of `asString`. */
  function AsData<P>(b: Blob<P>, c: TextCodecs, pc: PayloadCodec<P>): (r: Bytes)
    ensures Utf8Inverse(c) ==> c.utf8String(r) == Some(AsString(b, c, pc))
  {
    c.utf8Bytes(AsString(b, c, pc))
  }

  /** `token(jsonData:)`: the verified claims JSON plus the blob's footer as text. */
  function ToToken<P>(b: Blob<P>, jsonData: Bytes, c: TextCodecs, json: Json): (r: Result<Tokens.Token, Error>)
    ensures c.utf8String(b.footer).None? ==> r == Failure(BadEncoding)
    ensures c.utf8String(b.footer).Some? ==>
      r == Tokens.FromJsonData(jsonData, c.utf8String(b.footer).value, [b.header.version], json)
    ensures r.Success? ==>
      && r.value.allowedVersions == [b.header.version]
      && c.utf8String(b.footer) == Some(r.value.footer)
      && json.parse(jsonData) == StringMap(r.value.claims)
  {
    match c.utf8String(b.footer)
    case None => Failure(BadEncoding)
    case Some(footer) => Tokens.FromJsonData(jsonData, footer, [b.header.version], json)
  }

  /**
   * `verify(with:)` on a signed blob: `versionVerify` is the key's version
   * implementation `V.verify(_, with:)`, giving the verified claims JSON.
   */
  function Verify<P>(b: Blob<P>, key: AsymmetricPublicKey, c: TextCodecs, json: Json,
                     versionVerify: (Blob<P>, AsymmetricPublicKey) -> Result<Bytes, Error>): (r: Result<Tokens.Token, Error>)
    ensures versionVerify(b, key).Failure? ==> r == Failure(versionVerify(b, key).error)
    ensures versionVerify(b, key).Success? ==> r == ToToken(b, versionVerify(b, key).value, c, json)
    ensures r.Success? ==> versionVerify(b, key).Success? && r.value.allowedVersions == [b.header.version]
  {
    match versionVerify(b, key)
    case Failure(e) => Failure(e)
    case Success(message) => ToToken(b, message, c, json)
  }

  /** `decrypt(with:)` on an encrypted blob, through `V.decrypt(_, with:)`. */
  function Decrypt<P>(b: Blob<P>, key: SymmetricKey, c: TextCodecs, json: Json,
                      versionDecrypt: (Blob<P>, SymmetricKey) -> Result<Bytes, Error>): (r: Result<Tokens.Token, Error>)
    ensures versionDecrypt(b, key).Failure? ==> r == Failure(versionDecrypt(b, key).error)
    ensures versionDecrypt(b, key).Success? ==> r == ToToken(b, versionDecrypt(b, key).value, c, json)
    ensures r.Success? ==> versionDecrypt(b, key).Success? && r.value.allowedVersions == [b.header.version]
  {
    match versionDecrypt(b, key)
    case Failure(e) => Failure(e)
    case Success(message) => ToToken(b, message, c, json)
  }

  // Properties of the wire format.

  /**
   * A blob prints as three segments, or four when it has a footer: the
   * header's two tags, the encoded payload and the base64url footer.
   */
  lemma {:induction false} AsStringSegments<P(!new)>(b: Blob<P>, c: TextCodecs, pc: PayloadCodec<P>)
      returns (v: string, p: string)
    requires Lawful(c) && PayloadInverse(pc)
    ensures c.header(v, p) == Some(b.header)
    ensures c.split(AsString(b, c, pc)) ==
              [v, p, pc.encode(b.payload)] + (if b.footer == [] then [] else [c.toBase64(b.footer)])
  {
    v, p := HeaderTags(b.header, c);
    var e := pc.encode(b.payload);
    assert DotFree(e);
    if b.footer == [] {
      SplitThree(v, p, e, c);
    } else {
      var f := c.toBase64(b.footer);
      assert DotFree(f);
      SplitFour(v, p, e, f, c);
    }
  }

  lemma {:induction false} SplitThree(v: string, p: string, e: string, c: TextCodecs)
    requires SplitInvertsJoin(c)
    requires DotFree(v) && DotFree(p) && DotFree(e)
    ensures c.split(v + "." + p + "." + e) == [v, p, e]
  {
    JoinThree(v, p, e);
    assert c.split(Join([v, p, e])) == [v, p, e];
  }

  lemma {:induction false} SplitFour(v: string, p: string, e: string, f: string, c: TextCodecs)
    requires SplitInvertsJoin(c)
    requires DotFree(v) && DotFree(p) && DotFree(e) && DotFree(f)
    ensures c.split(v + "." + p + "." + e + "." + f) == [v, p, e, f]
  {
    JoinFour(v, p, e, f);
    assert c.split(Join([v, p, e, f])) == [v, p, e, f];
  }

  /** The two tags a header prints as. */
  lemma HeaderTags(h: Header, c: TextCodecs) returns (v: string, p: string)
    requires HeaderTagged(c)
    ensures DotFree(v) && DotFree(p)
    ensures c.headerString(h) == v + "." + p + "." && c.header(v, p) == Some(h)
  {
    v, p :| DotFree(v) && DotFree(p) && c.headerString(h) == v + "." + p + "." && c.header(v, p) == Some(h);
  }

  /** Parsing the printed form of any blob gives that blob back. */
  lemma {:induction false} ParsePrintRoundTrip<P(!new)>(b: Blob<P>, c: TextCodecs, pc: PayloadCodec<P>)
    requires Lawful(c) && PayloadInverse(pc)
    ensures Parse(AsString(b, c, pc), c, pc) == Some(b)
  {
    var v, p := AsStringSegments(b, c, pc);
    assert pc.decode(pc.encode(b.payload)) == Some(b.payload);
    if b.footer != [] {
      assert c.fromBase64(c.toBase64(b.footer)) == Some(b.footer);
    }
  }

  /**
   * The footer never makes a parse fail: a four-segment token parses exactly
   * when its first three segments do, and a footer that is not base64url
   * parses as if it were absent.
   */
  lemma {:induction false} FooterNeverRejects<P>(v: string, p: string, e: string, f: string,
                                                c: TextCodecs, pc: PayloadCodec<P>)
    requires SplitInvertsJoin(c)
    requires DotFree(v) && DotFree(p) && DotFree(e) && DotFree(f)
    ensures Parse(Join([v, p, e, f]), c, pc).Some? <==> Parse(Join([v, p, e]), c, pc).Some?
    ensures c.fromBase64(f).None? ==> Parse(Join([v, p, e, f]), c, pc) == Parse(Join([v, p, e]), c, pc)
  {
    assert c.split(Join([v, p, e, f])) == [v, p, e, f];
    assert c.split(Join([v, p, e])) == [v, p, e];
  }

  /** A token string that does not split into three or four segments is rejected. */
  lemma {:induction false} WrongSegmentCountRejected<P>(parts: seq<string>, c: TextCodecs, pc: PayloadCodec<P>)
    requires SplitInvertsJoin(c)
    requires |parts| > 0 && forall i :: 0 <= i < |parts| ==> DotFree(parts[i])
    requires |parts| != 3 && |parts| != 4
    ensures Parse(Join(parts), c, pc) == None
  {
  }
}

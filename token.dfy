/**
 * The claims container: an immutable value of claims, footer and the
 * versions it may be signed or encrypted with, together with its copy
 * operations, the claim merge and the guarded `sign`/`encrypt` entry points.
 */
module Tokens {
  import opened Wrappers
  import opened ByteArrays
  import opened Paseto
  import opened Codecs

  /**
   * The dictionary operator `<+` on `[String: String]`, which is not part of
   * this model's sources: taken to be a right-biased overlay.
   */
  function Overlay(left: map<string, string>, right: map<string, string>): (r: map<string, string>)
    ensures r.Keys == left.Keys + right.Keys
    ensures forall k :: k in right ==> r[k] == right[k]
    ensures forall k :: k in left && k !in right ==> r[k] == left[k]
  {
    left + right
  }

  datatype Token = Token(claims: map<string, string>, footer: string, allowedVersions: seq<Version>)
  {
    /** Subscript get: the claim stored under `key`, if any. */
    function Get(key: string): (r: Option<string>)
      ensures r.Some? <==> key in claims
      ensures r.Some? ==> r.value == claims[key]
    {
      if key in claims then Some(claims[key]) else None
    }

    /**
     * Subscript set (`token[key] = value`). `Token` is a Swift struct, so
     * the in-place assignment yields a new value of the variable; `None`
     * removes the claim.
     */
    function Set(key: string, value: Option<string>): (r: Token)
      ensures r.Get(key) == value
      ensures forall k :: k != key ==> r.Get(k) == Get(k)
      ensures r.footer == footer && r.allowedVersions == allowedVersions
    {
      match value
      case Some(v) => this.(claims := claims[key := v])
      case None => this.(claims := claims - {key})
    }

    function ReplaceClaims(claims': map<string, string>): (r: Token)
      ensures r.claims == claims'
      ensures r.footer == footer && r.allowedVersions == allowedVersions
    {
      Token(claims', footer, allowedVersions)
    }

    function ReplaceFooter(footer': string): (r: Token)
      ensures r.footer == footer'
      ensures r.claims == claims && r.allowedVersions == allowedVersions
    {
      Token(claims, footer', allowedVersions)
    }

    function ReplaceAllowedVersions(allowedVersions': seq<Version>): (r: Token)
      ensures r.allowedVersions == allowedVersions'
      ensures r.claims == claims && r.footer == footer
    {
      Token(claims, footer, allowedVersions')
    }

    /** `token <+ right`: the given claims overwrite, all others stay. */
    function Merge(right: map<string, string>): (r: Token)
      ensures forall k :: r.Get(k) == if k in right then Some(right[k]) else Get(k)
      ensures r.footer == footer && r.allowedVersions == allowedVersions
    {
      ReplaceClaims(Overlay(claims, right))
    }
  }

  /** The memberwise initialiser with its defaults. */
  function Init(claims: map<string, string> := map[], footer: string := "",
                allowedVersions: seq<Version> := [V2]): (t: Token)
    ensures t.claims == claims && t.footer == footer && t.allowedVersions == allowedVersions
  {
    Token(claims, footer, allowedVersions)
  }

  /** `init(jsonData:footer:allowedVersions:)` */
  function FromJsonData(jsonData: Bytes, footer: string, allowedVersions: seq<Version>,
                        json: Json): (r: Result<Token, Error>)
    ensures json.parse(jsonData).Malformed? ==> r == Failure(JsonSyntaxError)
    ensures json.parse(jsonData).NotStringMap? ==> r == Failure(DecodeError)
    ensures r.Success? <==> json.parse(jsonData).StringMap?
    ensures r.Success? ==>
      r.value == Token(json.parse(jsonData).claims, footer, allowedVersions)
  {
    match json.parse(jsonData)
    case Malformed => Failure(JsonSyntaxError)
    case NotStringMap => Failure(DecodeError)
    case StringMap(claims) => Success(Token(claims, footer, allowedVersions))
  }

  /**
   * The guard chain `sign` and `encrypt` share: serialise the claims, then
   * check the key's version against the allow-list.
   */
  function CheckedClaims(t: Token, keyVersion: Version, json: Json): (r: Result<Bytes, Error>)
    ensures r.Success? <==> json.serialise(t.claims).Some? && keyVersion in t.allowedVersions
    ensures r.Success? ==> r.value == json.serialise(t.claims).value
    ensures r.Failure? && json.serialise(t.claims).None? ==> r.error == SerialiseError
    ensures r.Failure? && json.serialise(t.claims).Some? ==> r.error == DisallowedVersion
  {
    match json.serialise(t.claims)
    case None => Failure(SerialiseError)
    case Some(claimsData) =>
      if keyVersion in t.allowedVersions then Success(claimsData) else Failure(DisallowedVersion)
  }

  /**
   * `sign(with:)`: `versionSign` is the key's version implementation
   * `V.sign(_, with:, footer:)`, which yields a signed blob of type `B`.
   */
  function Sign<B>(t: Token, key: AsymmetricSecretKey, json: Json, c: TextCodecs,
                   versionSign: (Bytes, AsymmetricSecretKey, Bytes) -> B): (r: Result<B, Error>)
    ensures json.serialise(t.claims).None? ==> r == Failure(SerialiseError)
    ensures json.serialise(t.claims).Some? && key.version !in t.allowedVersions ==>
      r == Failure(DisallowedVersion)
    ensures r.Success? <==> json.serialise(t.claims).Some? && key.version in t.allowedVersions
    ensures r.Success? ==>
      r.value == versionSign(json.serialise(t.claims).value, key, c.utf8Bytes(t.footer))
  {
    match CheckedClaims(t, key.version, json)
    case Failure(e) => Failure(e)
    case Success(claimsData) => Success(versionSign(claimsData, key, c.utf8Bytes(t.footer)))
  }

  /** `encrypt(with:)`, the same guards in front of `V.encrypt(_, with:, footer:)`. */
  function Encrypt<B>(t: Token, key: SymmetricKey, json: Json, c: TextCodecs,
                      versionEncrypt: (Bytes, SymmetricKey, Bytes) -> B): (r: Result<B, Error>)
    ensures json.serialise(t.claims).None? ==> r == Failure(SerialiseError)
    ensures json.serialise(t.claims).Some? && key.version !in t.allowedVersions ==>
      r == Failure(DisallowedVersion)
    ensures r.Success? <==> json.serialise(t.claims).Some? && key.version in t.allowedVersions
    ensures r.Success? ==>
      r.value == versionEncrypt(json.serialise(t.claims).value, key, c.utf8Bytes(t.footer))
  {
    match CheckedClaims(t, key.version, json)
    case Failure(e) => Failure(e)
    case Success(claimsData) => Success(versionEncrypt(claimsData, key, c.utf8Bytes(t.footer)))
  }

  /** The non-throwing `sign(with:) -> Blob<Signed>?`. */
  function SignOrNil<B>(t: Token, key: AsymmetricSecretKey, json: Json, c: TextCodecs,
                        versionSign: (Bytes, AsymmetricSecretKey, Bytes) -> B): (r: Option<B>)
    ensures r.None? <==> Sign(t, key, json, c, versionSign).Failure?
    ensures r.Some? ==> r.value == Sign(t, key, json, c, versionSign).value
  {
    match Sign(t, key, json, c, versionSign)
    case Success(blob) => Some(blob)
    case Failure(_) => None
  }

  /** The non-throwing `encrypt(with:) -> Blob<Encrypted>?`. */
  function EncryptOrNil<B>(t: Token, key: SymmetricKey, json: Json, c: TextCodecs,
                           versionEncrypt: (Bytes, SymmetricKey, Bytes) -> B): (r: Option<B>)
    ensures r.None? <==> Encrypt(t, key, json, c, versionEncrypt).Failure?
    ensures r.Some? ==> r.value == Encrypt(t, key, json, c, versionEncrypt).value
  {
    match Encrypt(t, key, json, c, versionEncrypt)
    case Success(blob) => Some(blob)
    case Failure(_) => None
  }

  // Properties relating the operations.

  lemma DefaultInit()
    ensures Init() == Token(map[], "", [V2])
  {
  }

  /** Writing back the value a key already has changes nothing. */
  lemma SetOwnValue(t: Token, key: string)
    ensures t.Set(key, t.Get(key)) == t
  {
  }

  /** The later of two writes to one key wins. */
  lemma SetLastWins(t: Token, key: string, v: Option<string>, w: Option<string>)
    ensures t.Set(key, v).Set(key, w) == t.Set(key, w)
  {
  }

  /** Each replacement composes: the later value of the field wins. */
  lemma ReplaceLastWins(t: Token, c1: map<string, string>, c2: map<string, string>,
                        f1: string, f2: string, a1: seq<Version>, a2: seq<Version>)
    ensures t.ReplaceClaims(c1).ReplaceClaims(c2) == t.ReplaceClaims(c2)
    ensures t.ReplaceFooter(f1).ReplaceFooter(f2) == t.ReplaceFooter(f2)
    ensures t.ReplaceAllowedVersions(a1).ReplaceAllowedVersions(a2) == t.ReplaceAllowedVersions(a2)
  {
  }

  /** Replacing a field with its own value gives back the token. */
  lemma ReplaceOwnValue(t: Token)
    ensures t.ReplaceClaims(t.claims) == t
    ensures t.ReplaceFooter(t.footer) == t
    ensures t.ReplaceAllowedVersions(t.allowedVersions) == t
  {
  }

  /** Merging one claim is the subscript write of that claim. */
  lemma MergeSingleton(t: Token, key: string, value: string)
    ensures t.Merge(map[key := value]) == t.Set(key, Some(value))
  {
  }

  /** Merging nothing changes nothing. */
  lemma MergeEmpty(t: Token)
    ensures t.Merge(map[]) == t
  {
  }

  /** Two merges in a row are one merge of the overlaid claims. */
  lemma MergeTwice(t: Token, a: map<string, string>, b: map<string, string>)
    ensures t.Merge(a).Merge(b) == t.Merge(Overlay(a, b))
  {
  }

  /** `Token(claims: ["a": "1"]) <+ ["a": "2", "b": "3"]` has claims `a = 2, b = 3`. */
  lemma MergeExample()
    ensures Init(map["a" := "1"]).Merge(map["a" := "2", "b" := "3"]).claims == map["a" := "2", "b" := "3"]
  {
  }

  /**
   * A disallowed version stops `sign`/`encrypt` before the version
   * implementation: the result is the same whatever that implementation does.
   */
  lemma DisallowedNeverSigns<B>(t: Token, key: AsymmetricSecretKey, json: Json, c: TextCodecs,
                                f: (Bytes, AsymmetricSecretKey, Bytes) -> B,
                                g: (Bytes, AsymmetricSecretKey, Bytes) -> B)
    requires key.version !in t.allowedVersions
    ensures Sign(t, key, json, c, f) == Sign(t, key, json, c, g)
    ensures Sign(t, key, json, c, f).Failure?
  {
  }

  lemma DisallowedNeverEncrypts<B>(t: Token, key: SymmetricKey, json: Json, c: TextCodecs,
                                   f: (Bytes, SymmetricKey, Bytes) -> B,
                                   g: (Bytes, SymmetricKey, Bytes) -> B)
    requires key.version !in t.allowedVersions
    ensures Encrypt(t, key, json, c, f) == Encrypt(t, key, json, c, g)
    ensures Encrypt(t, key, json, c, f).Failure?
  {
  }

  /** Serialised claims come back through `init(jsonData:)` unchanged. */
  lemma SerialisedClaimsDecode(t: Token, json: Json)
    requires JsonInverse(json)
    requires json.serialise(t.claims).Some?
    ensures FromJsonData(json.serialise(t.claims).value, t.footer, t.allowedVersions, json) == Success(t)
  {
  }
}

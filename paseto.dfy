/**
 * The protocol vocabulary shared by the token, the wire format and the
 * version implementations: versions, purposes, headers, keys and the
 * errors the core throws.
 */
module Paseto {
  import opened ByteArrays

  /** Protocol versions; each key type is bound to one of them. */
  datatype Version = V1 | V2 | V3 | V4

  /** `local` tokens are encrypted, `public` tokens are signed. */
  datatype Purpose = Local | Public

  /** The leading `version.purpose.` prefix of a token. */
  datatype Header = Header(version: Version, purpose: Purpose)

  /**
   * Keys. In the source the version is a generic type parameter of the key
   * type (`AsymmetricSecretKey<V>`); here it is an explicit tag.
   */
  datatype AsymmetricSecretKey = AsymmetricSecretKey(version: Version, material: Bytes)
  datatype AsymmetricPublicKey = AsymmetricPublicKey(version: Version, material: Bytes)
  datatype SymmetricKey = SymmetricKey(version: Version, material: Bytes)

  /**
   * Everything the core throws. `SerialiseError`, `DecodeError` and
   * `DisallowedVersion` are `Token.Exception`; `BadEncoding` is
   * `Blob.Exception`; `InvalidSignature` is `Version2.Exception`;
   * `JsonSyntaxError` is the error `JSONSerialization.jsonObject` itself
   * throws on bytes that are not JSON, which `Token` lets through.
   */
  datatype Error =
    | SerialiseError
    | DecodeError
    | DisallowedVersion
    | BadEncoding
    | InvalidSignature
    | JsonSyntaxError
}

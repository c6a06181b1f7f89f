/**
 * Version 2 `public` purpose: signing a package into a signed blob and
 * verifying a signed blob back into a package. The signed message is the
 * pre-authentication encoding of header, content and footer, in that order.
 */
module Version2Public {
  import opened Wrappers
  import opened ByteArrays
  import opened Paseto
  import opened Blobs

  /** Version 2 signed payload: the message and its detached signature. */
  datatype SignedPayload = SignedPayload(message: Bytes, signature: Bytes)

  /** Content with the footer it travels with. */
  datatype Package = Package(content: Bytes, footer: Bytes)

  /**
   * What the version calls out to: `Util.pae`, the bytes of a header, and
   * the Ed25519 `Sign.signature` and `Sign.verify`. `Sign.signature`'s
   * optional result is force-unwrapped by the caller, so it is total here.
   */
  datatype Primitives = Primitives(
    pae: seq<Bytes> -> Bytes,
    headerBytes: Header -> Bytes,
    signature: (Bytes, Bytes) -> Bytes,
    verify: (Bytes, Bytes, Bytes) -> bool)

  /** `Header(version: .v2, purpose: .Public)` */
  const PublicHeader := Header(V2, Public)

  /** The bytes that are signed for a header, content and footer. */
  function SignedMessage(header: Header, content: Bytes, footer: Bytes, prim: Primitives): Bytes {
    prim.pae([prim.headerBytes(header), content, footer])
  }

  /**
   * `sign(_:with:)`. `Message(payload:footer:)` is not part of this model;
   * the message it builds is a blob under this version's public header.
   */
  function Sign(package: Package, key: AsymmetricSecretKey, prim: Primitives): (m: Blob<SignedPayload>)
    ensures m.header == PublicHeader
    ensures m.payload.message == package.content
    ensures m.footer == package.footer
    ensures m.payload.signature ==
      prim.signature(prim.pae([prim.headerBytes(m.header), package.content, package.footer]), key.material)
  {
    var (data, footer) := (package.content, package.footer);
    var header := PublicHeader;
    var signature := prim.signature(SignedMessage(header, data, footer, prim), key.material);
    var payload := SignedPayload(data, signature);
    Blob(header, payload, footer)
  }

  /** `verify(_:with:)` */
  function Verify(message: Blob<SignedPayload>, key: AsymmetricPublicKey, prim: Primitives): (r: Result<Package, Error>)
    ensures r.Success? <==>
      prim.verify(prim.pae([prim.headerBytes(message.header), message.payload.message, message.footer]),
                  key.material, message.payload.signature)
    ensures r.Failure? ==> r.error == InvalidSignature
    ensures r.Success? ==> r.value == Package(message.payload.message, message.footer)
  {
    var (header, footer) := (message.header, message.footer);
    var payload := message.payload;
    if !prim.verify(SignedMessage(header, payload.message, footer, prim), key.material, payload.signature) then
      Failure(InvalidSignature)
    else
      Success(Package(payload.message, footer))
  }

  /** The key pair assumption: a signature made with `sk` verifies under `pk`. */
  ghost predicate KeyPair(prim: Primitives, sk: AsymmetricSecretKey, pk: AsymmetricPublicKey) {
    forall m: Bytes :: prim.verify(m, pk.material, prim.signature(m, sk.material))
  }

  /** Verifying what was signed with the matching key gives back the package. */
  lemma SignVerifyRoundTrip(package: Package, sk: AsymmetricSecretKey, pk: AsymmetricPublicKey, prim: Primitives)
    requires KeyPair(prim, sk, pk)
    ensures Verify(Sign(package, sk, prim), pk, prim) == Success(package)
  {
  }
}

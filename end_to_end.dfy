/**
 * A token's whole journey under version 2 `public`: signed, printed to the
 * wire, parsed back, verified, and rebuilt as a token.
 */
module EndToEnd {
  import opened Wrappers
  import opened ByteArrays
  import opened Paseto
  import opened Codecs
  import Tokens
  import Blobs
  import V2 = Version2Public

  /**
   * The version-level `V.sign(_:with:footer:)` for version 2 public, which
   * packages the claims with the footer (the glue is not part of this model).
   */
  function SignWith(prim: V2.Primitives): (Bytes, AsymmetricSecretKey, Bytes) -> Blobs.Blob<V2.SignedPayload> {
    (data: Bytes, key: AsymmetricSecretKey, footer: Bytes) => V2.Sign(V2.Package(data, footer), key, prim)
  }

  /** The version-level `V.verify(_:with:)`: the verified package's content. */
  function VerifyWith(prim: V2.Primitives): (Blobs.Blob<V2.SignedPayload>, AsymmetricPublicKey) -> Result<Bytes, Error> {
    (blob: Blobs.Blob<V2.SignedPayload>, key: AsymmetricPublicKey) =>
      match V2.Verify(blob, key, prim)
      case Success(package) => Success(package.content)
      case Failure(e) => Failure(e)
  }

  /**
   * Signing a token whose claims serialise, with a version 2 key it allows,
   * gives a blob that survives the wire and verifies under the matching
   * public key to the same claims and footer, now allowing just version 2.
   */
  lemma {:induction false} SignedTokenRoundTrip(t: Tokens.Token, sk: AsymmetricSecretKey, pk: AsymmetricPublicKey,
                                               c: TextCodecs, pc: PayloadCodec<V2.SignedPayload>, json: Json,
                                               prim: V2.Primitives)
    requires Lawful(c) && PayloadInverse(pc) && JsonInverse(json) && V2.KeyPair(prim, sk, pk)
    requires sk.version == V2 && V2 in t.allowedVersions
    requires json.serialise(t.claims).Some?
    ensures var signed := Tokens.Sign(t, sk, json, c, SignWith(prim));
      && signed.Success?
      && Blobs.Parse(Blobs.AsString(signed.value, c, pc), c, pc) == Some(signed.value)
      && Blobs.Verify(signed.value, pk, c, json, VerifyWith(prim)) == Success(t.ReplaceAllowedVersions([V2]))
  {
    var data := json.serialise(t.claims).value;
    var footer := c.utf8Bytes(t.footer);
    var blob := V2.Sign(V2.Package(data, footer), sk, prim);
    assert Tokens.Sign(t, sk, json, c, SignWith(prim)) == Success(blob);
    Blobs.ParsePrintRoundTrip(blob, c, pc);
    V2.SignVerifyRoundTrip(V2.Package(data, footer), sk, pk, prim);
    assert VerifyWith(prim)(blob, pk) == Success(data);
    assert c.utf8String(blob.footer) == Some(t.footer);
    Tokens.SerialisedClaimsDecode(t.ReplaceAllowedVersions([V2]), json);
  }

  /** With the default allow-list the verified token is the token that was signed. */
  lemma DefaultTokenRoundTrip(claims: map<string, string>, footer: string,
                              sk: AsymmetricSecretKey, pk: AsymmetricPublicKey,
                              c: TextCodecs, pc: PayloadCodec<V2.SignedPayload>, json: Json, prim: V2.Primitives)
    requires Lawful(c) && PayloadInverse(pc) && JsonInverse(json) && V2.KeyPair(prim, sk, pk)
    requires sk.version == V2
    requires json.serialise(claims).Some?
    ensures var t := Tokens.Init(claims, footer);
      var signed := Tokens.Sign(t, sk, json, c, SignWith(prim));
      signed.Success? && Blobs.Verify(signed.value, pk, c, json, VerifyWith(prim)) == Success(t)
  {
    SignedTokenRoundTrip(Tokens.Init(claims, footer), sk, pk, c, pc, json, prim);
  }

  /** A version 2 key is refused by a token that allows only another version, before any signing. */
  lemma OtherVersionRefused(t: Tokens.Token, sk: AsymmetricSecretKey, c: TextCodecs, json: Json, prim: V2.Primitives)
    requires sk.version == V2 && t.allowedVersions == [V4]
    requires json.serialise(t.claims).Some?
    ensures Tokens.Sign(t, sk, json, c, SignWith(prim)) == Failure(DisallowedVersion)
  {
  }
}

# swift-paseto core, modelled in Dafny

This project models the core of a Swift implementation of PASETO (Platform-Agnostic
SEcurity TOkens). It covers four parts:

- the `Token` claims container: claims, footer and the protocol versions the token may be
  signed or encrypted with;
- the `Blob` wire format `header.payload[.footer]`;
- the version 2 `public` sign/verify dispatch;
- the byte-array helpers that everything else is built on.

Modules, one per source file or component:

| module | file | models |
|---|---|---|
| `ByteArrays` | `bytes.dfy` | `Sources/Paseto/BytesRepresentables/Bytes.swift` |
| `Paseto` | `paseto.dfy` | versions, purposes, headers, version-tagged keys, the thrown errors |
| `Codecs` | `codecs.dfy` | the collaborators the core calls but does not define, and the laws assumed of them |
| `Tokens` | `token.dfy` | `Sources/Paseto/Token.swift` |
| `Blobs` | `blob.dfy` | `Sources/Paseto/Blob.swift` |
| `Version2Public` | `v2_public.dfy` | `Sources/Paseto/Implementations/Version2/V2Public.swift` |
| `Pae` | `pae.dfy` | Pre-Authentication Encoding as section 2.2 of the PASETO draft (draft-paragon-paseto-rfc) defines it |
| `EndToEnd` | `end_to_end.dfy` | sign, print, parse and verify composed |

Everything the core calls but does not define is passed in as a function-valued parameter.
This covers `Header.split`, `Header(version:purpose:)`, `Header.asString`, the payload codec,
base64url without padding, UTF-8, `JSONSerialization`, `Util.pae`, header bytes and Ed25519
`Sign.signature`/`Sign.verify`. The model never says how any of them works. Where a lemma
needs one of them to behave, it states that as a predicate in its `requires`:

- `SplitInvertsJoin`: splitting undoes joining with `.`.
- `HeaderTagged`: a header prints as `version.purpose.` and parses back from its tags.
- `Base64Inverse`, `Utf8Inverse`, `PayloadInverse`, `JsonInverse`: each decoder undoes its
  encoder, and encoded text contains no `.`.
- `KeyPair`: a signature made with the secret key verifies under the public key.

Three behaviours of the code worth knowing, each modelled as the code has it:

- A blob rebuilt into a token (`Blob.token(jsonData:)`) gets `allowedVersions ==
  [header.version]`, not the caller's list.
- Claims bytes that are not JSON at all do not become `decodeError`: the error thrown by
  `JSONSerialization.jsonObject` passes through (`JsonSyntaxError` here). Only JSON that is
  not a flat string map gives `decodeError`.
- A fourth segment that is not valid base64url is read as an empty footer.
  `Blobs.FooterNeverRejects` proves the parse then equals that of the three-segment string.

## Model

| member | source | states |
|---|---|---|
| `ByteArrays.Zeroed` | Sources/Paseto/BytesRepresentables/Bytes.swift:11-13 | `Bytes(count: n)` has length `n` and every byte is 0 |
| `ByteArrays.AsBytes` | Sources/Paseto/BytesRepresentables/Bytes.swift:19 | `bytes` is the array itself |
| `ByteArrays.FromBytes` | Sources/Paseto/BytesRepresentables/Bytes.swift:21-23 | `init(bytes:)` stores its argument unchanged |
| `ByteArrays.ConversionRoundTrip` | Sources/Paseto/BytesRepresentables/Bytes.swift:19-23 | `init(bytes: b).bytes == b`, and the other way round |
| `Tokens.Init` | Sources/Paseto/Token.swift:17-25 | the memberwise initialiser stores claims, footer and allow-list verbatim |
| `Tokens.DefaultInit` | Sources/Paseto/Token.swift:17-25 | the defaults are no claims, empty footer and allow-list `[v2]` |
| `Tokens.Token.Get` | Sources/Paseto/Token.swift:27-28 | the subscript gives a value exactly when the key is a claim, and then the claim's value |
| `Tokens.Token.Set` | Sources/Paseto/Token.swift:27-30 | after `t[key] = v`, reading `key` gives `v` (nil removes it); every other key reads as before; footer and allow-list are unchanged |
| `Tokens.SetOwnValue` | Sources/Paseto/Token.swift:27-30 | writing back the value a key already has (including nil) leaves the token equal to itself |
| `Tokens.SetLastWins` | Sources/Paseto/Token.swift:27-30 | of two writes to one key, only the later one is visible |
| `Tokens.Token.ReplaceClaims` | Sources/Paseto/Token.swift:48-54 | only the claims differ in the copy; footer and allow-list are the original's |
| `Tokens.Token.ReplaceFooter` | Sources/Paseto/Token.swift:56-62 | only the footer differs in the copy; claims and allow-list are the original's |
| `Tokens.Token.ReplaceAllowedVersions` | Sources/Paseto/Token.swift:64-70 | only the allow-list differs in the copy; claims and footer are the original's |
| `Tokens.ReplaceLastWins` | Sources/Paseto/Token.swift:48-70 | replacing one field twice equals replacing it once with the later value |
| `Tokens.ReplaceOwnValue` | Sources/Paseto/Token.swift:48-70 | replacing a field with its own value gives back the same token |
| `Tokens.Overlay` | Sources/Paseto/Token.swift:75 | the dictionary `<+` has the keys of both sides; the right side's values win, and the left's stay elsewhere |
| `Tokens.Token.Merge` | Sources/Paseto/Token.swift:74-76 | `t <+ right` reads each key from `right` if there, else from `t`; footer and allow-list are `t`'s |
| `Tokens.MergeSingleton` | Sources/Paseto/Token.swift:74-76 | merging a one-claim map equals the subscript write of that claim |
| `Tokens.MergeEmpty` | Sources/Paseto/Token.swift:74-76 | merging an empty map changes nothing |
| `Tokens.MergeTwice` | Sources/Paseto/Token.swift:74-76 | two merges in a row are one merge of the overlaid maps |
| `Tokens.MergeExample` | Sources/Paseto/Token.swift:74-76 | `Token(claims: ["a": "1"]) <+ ["a": "2", "b": "3"]` has claims `a = 2, b = 3` |
| `Tokens.FromJsonData` | Sources/Paseto/Token.swift:32-44 | bytes that are not JSON throw the JSON error; JSON that is not a flat string map throws `decodeError`; otherwise the parsed claims, footer and allow-list are stored verbatim |
| `Tokens.SerialisedClaimsDecode` | Sources/Paseto/Token.swift:32-44 | a token's serialised claims come back through `init(jsonData:)` as the same token |
| `Tokens.CheckedClaims` | Sources/Paseto/Token.swift:87-97 | the shared guard succeeds exactly when the claims serialise and the key's version is allowed; serialisation failure is reported first |
| `Tokens.Sign` | Sources/Paseto/Token.swift:86-100 | `serialiseError` when the claims do not serialise, whatever the version; otherwise `disallowedVersion` when the key's version is not allowed; otherwise exactly `V.sign` of the serialised claims and the footer's UTF-8 bytes |
| `Tokens.Encrypt` | Sources/Paseto/Token.swift:102-116 | the same guards and precedence in front of `V.encrypt`, which gets the serialised claims and the footer's UTF-8 bytes |
| `Tokens.DisallowedNeverSigns` | Sources/Paseto/Token.swift:93-99 | with a disallowed key version `sign` fails, and its result does not depend on the version implementation at all |
| `Tokens.DisallowedNeverEncrypts` | Sources/Paseto/Token.swift:109-115 | with a disallowed key version `encrypt` fails, and its result does not depend on the version implementation at all |
| `Tokens.SignOrNil` | Sources/Paseto/Token.swift:120-122 | nil exactly when the throwing `sign` throws, otherwise the same blob |
| `Tokens.EncryptOrNil` | Sources/Paseto/Token.swift:123-125 | nil exactly when the throwing `encrypt` throws, otherwise the same blob |
| `Blobs.Init` | Sources/Paseto/Blob.swift:15-19 | header, payload and footer are stored verbatim; the footer defaults to empty |
| `Blobs.Parse` | Sources/Paseto/Blob.swift:21-36 | a blob exactly when there are 3 or 4 segments, the header tags parse and the payload segment decodes; then header and payload are those decodings; with 3 segments the footer is empty; with 4 it is the base64url decoding of segment 4, or empty if that fails |
| `Blobs.WrongSegmentCountRejected` | Sources/Paseto/Blob.swift:22-24 | a string of dot-free segments whose count is not 3 or 4 never parses |
| `Blobs.FooterNeverRejects` | Sources/Paseto/Blob.swift:30-33 | a four-segment string parses exactly when its first three segments do; with an undecodable footer the result is identical |
| `Blobs.AsString` | Sources/Paseto/Blob.swift:40-44 | the printed token starts with the header's text, and is longer than header plus payload exactly when a footer segment is appended; its segments are proved in `Blobs.AsStringSegments` and its inverse in `Blobs.ParsePrintRoundTrip` |
| `Blobs.AsStringSegments` | Sources/Paseto/Blob.swift:40-44 | the printed blob splits into the header's two tags and the encoded payload, plus the base64url footer exactly when the footer is non-empty |
| `Blobs.ParsePrintRoundTrip` | Sources/Paseto/Blob.swift:21-44 | parsing the printed form of any blob gives that blob back |
| `Blobs.AsData` | Sources/Paseto/Blob.swift:46 | the bytes are UTF-8 that decode back to `asString` |
| `Blobs.ToToken` | Sources/Paseto/Blob.swift:64-76 | `badEncoding` when the footer is not UTF-8; otherwise `init(jsonData:)` with the decoded footer; a token obtained allows exactly `[header.version]` |
| `Blobs.Verify` | Sources/Paseto/Blob.swift:50-53 | a version-level verification failure is passed through unchanged; otherwise the result is `token(jsonData:)` of the verified message |
| `Blobs.Decrypt` | Sources/Paseto/Blob.swift:57-60 | a version-level decryption failure is passed through unchanged; otherwise the result is `token(jsonData:)` of the decrypted message |
| `Version2Public.Sign` | Sources/Paseto/Implementations/Version2/V2Public.swift:13-29 | the blob carries the version 2 public header, the input content as message and the input footer; its signature is the primitive's over `pae([header, content, footer])`, in that order |
| `Version2Public.Verify` | Sources/Paseto/Implementations/Version2/V2Public.swift:31-50 | succeeds exactly when the primitive accepts the signature over `pae([header, message, footer])`; otherwise `invalidSignature`; on success the package is the message with the blob's footer |
| `Version2Public.SignVerifyRoundTrip` | Sources/Paseto/Implementations/Version2/V2Public.swift:13-50 | for a matching key pair, verifying what `sign` produced returns the signed package |
| `Pae.Encode` | Sources/Paseto/Implementations/Version2/V2Public.swift:22 | the standard's PAE, the encoding `Util.pae` is called for here and at line 40: it opens with the framed piece count and is 8 bytes per piece plus the pieces longer than that frame; injectivity is proved in `Pae.EncodeInjective`, the draft's vectors in `Pae.VectorsEmpty` and `Pae.VectorTest` |
| `Pae.EncodeInjective` | Sources/Paseto/Implementations/Version2/V2Public.swift:22 | with the standard's PAE, distinct lists of pieces never encode alike |
| `Pae.TripleSeparated` | Sources/Paseto/Implementations/Version2/V2Public.swift:40 | with the standard's PAE, one signed message determines its header, content and footer |
| `Pae.VectorsEmpty` | Sources/Paseto/Implementations/Version2/V2Public.swift:22 | the standard's PAE gives the draft's test vectors for `[]` and `[""]` |
| `Pae.VectorTest` | Sources/Paseto/Implementations/Version2/V2Public.swift:40 | the standard's PAE gives the draft's test vector for `["test"]` |
| `EndToEnd.SignedTokenRoundTrip` | Sources/Paseto/Blob.swift:21-76 | a token signed with an allowed version 2 key survives printing and parsing, and verifies with the matching public key to the same claims and footer, allowing only `v2` |
| `EndToEnd.DefaultTokenRoundTrip` | Sources/Paseto/Token.swift:17-25 | with the default allow-list, the verified token equals the token that was signed |
| `EndToEnd.OtherVersionRefused` | Sources/Paseto/Token.swift:93-97 | a token allowing only `v4` refuses a version 2 key with `disallowedVersion` |

## Left out

- Cryptography: Ed25519 `Sign.signature`/`Sign.verify` are parameters with no definition. The
  only assumption about them is `Version2Public.KeyPair`. Tamper detection depends on the
  primitive being unforgeable, so it is not stated.
- `Sign.signature` returns an optional that the source force-unwraps. The model gives the
  primitive a total type, which assumes it never fails. The crash path is not modelled.
- JSON, base64url-no-pad, UTF-8, `Header.split`, `Header(version:purpose:)`, `Header.asString`,
  header bytes and the payload encoders/decoders are parameters. They are not part of this
  model; only the laws listed above are assumed of them.
- `Util.pae` is not part of this model. The version 2 functions take it as a parameter. The
  `Pae` module defines the standard's encoding, which is one instance of that parameter.
- `Version(implementation:)` and the generic key types are represented by a version tag on each
  key. The key-to-implementation binding is a compile-time guarantee, not a runtime check, so
  the version 2 functions ignore the tag.
- `Message(payload:footer:)` is not part of this model. The message it builds is taken to carry
  the version 2 public header.
- The `Version` enum is not part of this model. It is taken to have the cases `v1` to `v4`.
- Tokens.Overlay: the dictionary `<+` is defined outside the modelled files. It is assumed to be
  a right-biased overlay.
- Claim keys, footers and token segments are compared as sequences of Unicode code points.
  Swift compares `String`s by canonical equivalence, so `"\u{E9}"` and `"e\u{301}"` are one
  claim key in the source (for the subscript, `replace` and `<+`) but two keys in the model. In
  the same way, `DotFree` and `SplitInvertsJoin` test for `.` one code point at a time, while
  Swift's Character-based splitting does not split at a `.` followed by a combining mark. So the
  split law assumed for arbitrary dot-free segments is stronger than such a split meets; it
  holds for the ASCII segments a printed token consists of.
- The string messages attached to thrown errors are dropped; only the error case is kept.
- Encrypted payloads and the other versions' implementations are not part of this model. `Blobs.Decrypt` and
  `Tokens.Encrypt` take the version implementation as a parameter.
- `Bytes(count:)` with a negative count traps in Swift. The model takes a `nat`.

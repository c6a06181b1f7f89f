/**
 * Pre-Authentication Encoding as section 2.2 of the PASETO draft
 * (draft-paragon-paseto-rfc) defines it: the number of pieces as a 64-bit
 * little-endian integer with its top bit cleared, then each piece's length
 * framed the same way followed by the piece. `Util.pae` is not part of this
 * model; this is the standard's definition, an instance the version
 * implementations can be given.
 */
module Pae {
  import opened ByteArrays

  const Bound63: nat := 0x8000_0000_0000_0000

  function Pow256(k: nat): nat {
    if k == 0 then 1 else 256 * Pow256(k - 1)
  }

  /** `n` as `k` little-endian bytes, dropping what does not fit. */
  function LittleEndian(n: nat, k: nat): (r: Bytes)
    ensures |r| == k
  {
    if k == 0 then [] else [(n % 256) as UInt8] + LittleEndian(n / 256, k - 1)
  }

  /** `LE64`: eight bytes, most significant bit cleared. */
  function LE64(n: nat): (r: Bytes)
    ensures |r| == 8
  {
    LittleEndian(n % Bound63, 8)
  }

  /** Eight bytes of framing per piece, plus the pieces. */
  function FramedLength(pieces: seq<Bytes>): nat {
    if pieces == [] then 0 else 8 + |pieces[0]| + FramedLength(pieces[1..])
  }

  function Pieces(pieces: seq<Bytes>): (r: Bytes)
    ensures |r| == FramedLength(pieces)
  {
    if pieces == [] then [] else LE64(|pieces[0]|) + pieces[0] + Pieces(pieces[1..])
  }

  function Encode(pieces: seq<Bytes>): (r: Bytes)
    ensures |r| == 8 + FramedLength(pieces)
    ensures r[..8] == LE64(|pieces|)
  {
    LE64(|pieces|) + Pieces(pieces)
  }

  /** Counts and lengths that fit the 63 bits the framing keeps. */
  predicate Framable(pieces: seq<Bytes>) {
    |pieces| < Bound63 && forall i :: 0 <= i < |pieces| ==> |pieces[i]| < Bound63
  }

  lemma {:induction false} LittleEndianInjective(n: nat, m: nat, k: nat)
    requires n < Pow256(k) && m < Pow256(k)
    requires LittleEndian(n, k) == LittleEndian(m, k)
    ensures n == m
  {
    if k > 0 {
      assert LittleEndian(n, k)[0] == LittleEndian(m, k)[0];
      assert LittleEndian(n, k)[1..] == LittleEndian(n / 256, k - 1);
      assert LittleEndian(m, k)[1..] == LittleEndian(m / 256, k - 1);
      assert n / 256 < Pow256(k - 1);
      assert m / 256 < Pow256(k - 1);
      LittleEndianInjective(n / 256, m / 256, k - 1);
    }
  }

  lemma Pow256Eight()
    ensures Pow256(8) == 0x1_0000_0000_0000_0000
  {
  }

  lemma {:induction false} LE64Injective(n: nat, m: nat)
    requires n < Bound63 && m < Bound63
    requires LE64(n) == LE64(m)
    ensures n == m
  {
    Pow256Eight();
    assert n % Bound63 == n && m % Bound63 == m;
    LittleEndianInjective(n, m, 8);
  }

  /** The first piece's frame, the piece, then the frames of the rest. */
  lemma PiecesHead(a: seq<Bytes>)
    requires a != []
    ensures Pieces(a)[..8] == LE64(|a[0]|)
    ensures Pieces(a)[8..8 + |a[0]|] == a[0]
    ensures Pieces(a)[8 + |a[0]|..] == Pieces(a[1..])
  {
  }

  lemma {:induction false} PiecesInjective(a: seq<Bytes>, b: seq<Bytes>)
    requires Framable(a) && Framable(b)
    requires Pieces(a) == Pieces(b)
    ensures a == b
  {
    if a != [] && b != [] {
      PiecesHead(a);
      PiecesHead(b);
      LE64Injective(|a[0]|, |b[0]|);
      assert a[0] == b[0];
      assert Framable(a[1..]) && Framable(b[1..]);
      PiecesInjective(a[1..], b[1..]);
      assert a == [a[0]] + a[1..] && b == [b[0]] + b[1..];
    }
  }

  /** Distinct lists of pieces never encode alike. */
  lemma {:induction false} EncodeInjective(a: seq<Bytes>, b: seq<Bytes>)
    requires Framable(a) && Framable(b)
    requires Encode(a) == Encode(b)
    ensures a == b
  {
    var x := Encode(a);
    assert x[8..] == Pieces(a) && x[8..] == Pieces(b);
    PiecesInjective(a, b);
  }

  /**
   * Consequence for signing: one signed message is the encoding of exactly
   * one (header, content, footer) triple, so none of them can be moved
   * into another.
   */
  lemma {:induction false} TripleSeparated(h: Bytes, m: Bytes, f: Bytes, h': Bytes, m': Bytes, f': Bytes)
    requires |h| < Bound63 && |m| < Bound63 && |f| < Bound63
    requires |h'| < Bound63 && |m'| < Bound63 && |f'| < Bound63
    requires Encode([h, m, f]) == Encode([h', m', f'])
    ensures h == h' && m == m' && f == f'
  {
    EncodeInjective([h, m, f], [h', m', f']);
  }

  /** The test vectors the draft gives for `PAE([])` and `PAE([""])`. */
  lemma VectorsEmpty()
    ensures Encode([]) == [0, 0, 0, 0, 0, 0, 0, 0]
    ensures Encode([[]]) == [1, 0, 0, 0, 0, 0, 0, 0] + [0, 0, 0, 0, 0, 0, 0, 0]
  {
  }

  /** The test vector the draft gives for `PAE(["test"])`. */
  lemma VectorTest()
    ensures Encode([[0x74, 0x65, 0x73, 0x74]]) ==
      [1, 0, 0, 0, 0, 0, 0, 0] + [4, 0, 0, 0, 0, 0, 0, 0] + [0x74, 0x65, 0x73, 0x74]
  {
  }
}

/** Byte arrays: the `Bytes` alias (`Array<UInt8>`) and its conversions. */
module ByteArrays {

  /** Swift's `UInt8`. */
  newtype UInt8 = b: int | 0 <= b < 0x100

  /** `typealias Bytes = Array<UInt8>` */
  type Bytes = seq<UInt8>

  /** `Bytes(count: n)`: `n` zero bytes. A negative count traps in Swift, hence `nat`. */
  function Zeroed(count: nat): (r: Bytes)
    ensures |r| == count
    ensures forall i :: 0 <= i < |r| ==> r[i] == 0
  {
    seq(count, _ => 0)
  }

  /** The `bytes` view of a byte array is the array itself. */
  function AsBytes(b: Bytes): (r: Bytes)
    ensures r == b
  {
    b
  }

  /** `Array(bytes:)` stores its argument unchanged. */
  function FromBytes(bytes: Bytes): (r: Bytes)
    ensures r == bytes
  {
    bytes
  }

  lemma ConversionRoundTrip(b: Bytes)
    ensures AsBytes(FromBytes(b)) == b
    ensures FromBytes(AsBytes(b)) == b
  {
  }
}

/** The Go value types the service's records are built from. */
module GoTypes {

  /** Go's int32: identifiers and prices are 32-bit signed integers. */
  newtype int32 = x: int | -0x8000_0000 <= x < 0x8000_0000

  const MinInt32: int := -0x8000_0000
  const MaxInt32: int := 0x7fff_ffff

  /** uuid.UUID from github.com/google/uuid: sixteen bytes. */
  type Uuid = b: seq<bv8> | |b| == 16 witness seq(16, _ => 0 as bv8)

  /**
   * A Go slice as encoding/json sees it: a nil slice encodes as `null`,
   * a non-nil one (even of length zero) as an array.
   */
  datatype Slice<T> = Nil | Slice(elems: seq<T>) {

    /** The elements; a nil slice ranges over nothing. */
    function Elems(): seq<T> {
      match this
      case Nil => []
      case Slice(s) => s
    }
  }
}

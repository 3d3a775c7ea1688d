/** The value types shared by the video pipeline (dartvlc/internal/video_output.h):
    pixel formats, frame dimensions, and the arithmetic the delegates use on them. */
module VideoTypes {
  import opened Wrappers
  import opened Ints

  /** PixelFormat, with the ordinals the enum declares. */
  datatype PixelFormat = FormatNone | FormatRGBA | FormatBGRA

  function FormatOrdinal(f: PixelFormat): (r: int)
    ensures 0 <= r <= 2
  {
    match f
    case FormatNone => 0
    case FormatRGBA => 1
    case FormatBGRA => 2
  }

  /** Reads an ordinal back, as the receiving side of a frame event does. */
  function FormatOfOrdinal(n: int): (r: Option<PixelFormat>)
    ensures r.Some? <==> 0 <= n <= 2
  {
    if n == 0 then Some(FormatNone)
    else if n == 1 then Some(FormatRGBA)
    else if n == 2 then Some(FormatBGRA)
    else None
  }

  /** The ordinals are kNone = 0, kFormatRGBA = 1, kFormatBGRA = 2, and they
      identify the format uniquely. */
  lemma FormatOrdinals(f: PixelFormat, n: int)
    ensures FormatOrdinal(FormatNone) == 0 && FormatOrdinal(FormatRGBA) == 1 && FormatOrdinal(FormatBGRA) == 2
    ensures FormatOfOrdinal(FormatOrdinal(f)) == Some(f)
    ensures FormatOfOrdinal(n) == Some(f) ==> FormatOrdinal(f) == n
  {
  }

  /** VideoDimensions: three uint32 fields. */
  datatype VideoDimensions = VideoDimensions(width: int, height: int, bytesPerRow: int)

  predicate DimsInRange(d: VideoDimensions) {
    IsU32(d.width) && IsU32(d.height) && IsU32(d.bytesPerRow)
  }

  /** The default constructor zeroes all three fields. */
  const DefaultDimensions: VideoDimensions := VideoDimensions(0, 0, 0)

  /** operator== compares the three fields. */
  predicate DimsEqual(a: VideoDimensions, b: VideoDimensions) {
    a.width == b.width && a.height == b.height && a.bytesPerRow == b.bytesPerRow
  }

  /** operator!= is the negation of operator==. */
  predicate DimsNotEqual(a: VideoDimensions, b: VideoDimensions) {
    !DimsEqual(a, b)
  }

  lemma DimsEqualityIsValueEquality(a: VideoDimensions, b: VideoDimensions)
    ensures DimsEqual(a, b) <==> a == b
    ensures DimsNotEqual(a, b) <==> a != b
    ensures DefaultDimensions.width == 0 && DefaultDimensions.height == 0 && DefaultDimensions.bytesPerRow == 0
  {
  }

  /** What the Windows outlet asserts on every lock: bytes_per_row == width * 4,
      both sides computed in uint32. */
  predicate RowsConsistent(d: VideoDimensions) {
    d.bytesPerRow == MulU32(d.width, 4)
  }

  /** The byte size a delegate needs: bytes_per_row * height, a uint32 product. */
  function RequiredSize(d: VideoDimensions): (r: nat)
    ensures IsU32(r)
    ensures IsU32(d.bytesPerRow * d.height) ==> r == d.bytesPerRow * d.height
  {
    MulU32(d.bytesPerRow, d.height)
  }
}

/** The Java value types the activity works with, written out with their widths. */
module JavaTypes {
  import opened Wrappers

  predicate FitsInt32(x: int) {
    -0x8000_0000 <= x < 0x8000_0000
  }

  predicate FitsInt64(x: int) {
    -0x8000_0000_0000_0000 <= x < 0x8000_0000_0000_0000
  }

  /** Java `int`: a 32-bit two's-complement integer. */
  type Int32 = x: int | FitsInt32(x)

  /** Java `long`: a 64-bit two's-complement integer. */
  type Int64 = x: int | FitsInt64(x)

  /** A Java `String` reference: `None` is `null`. */
  type JavaString = Option<string>

  /** `TextUtils.isEmpty`: null or of length zero. */
  function IsEmpty(s: JavaString): (empty: bool)
    ensures empty <==> s == None || s == Some("")
  {
    s.None? || |s.value| == 0
  }
}

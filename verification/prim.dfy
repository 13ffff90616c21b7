/** The machine integers of the program (`u8`, `i32`), the two build
    profiles that decide what their arithmetic does on overflow, and the
    ways the program can panic. */
module Prim {
  import opened Wrappers

  /** An unsigned 8-bit value (`u8`). */
  type Byte = b: int | 0 <= b < 0x100

  const I32Min: int := -0x8000_0000
  const I32Max: int := 0x7fff_ffff

  /** A signed 32-bit value (`i32`). */
  type I32 = x: int | I32Min <= x <= I32Max

  /** A debug build panics when `+=` or `-=` leaves the range of the type;
      a release build wraps around. */
  datatype Build = Debug | Release

  /** Every way the program stops abnormally. */
  datatype Panic =
    | IndexOutOfBounds(index: nat)  // an index past the 32-byte memory array
    | AddOverflow                   // `u8 += u8` above 255 (debug build)
    | SubOverflow                   // `u8 -= u8` below 0 (debug build)
    | CycleOverflow                 // `i32 += 1` above I32Max (debug build)
    | InvalidToken(position: nat)   // `unwrap` of a failed hex parse of a program token

  /** `a += b` on `u8`. */
  function AddU8(build: Build, a: Byte, b: Byte): (r: Result<Byte, Panic>)
    ensures r.Err? <==> build.Debug? && a + b > 0xff
    ensures r.Err? ==> r.error == AddOverflow
    ensures r.Ok? ==> r.value == (a + b) % 0x100
  {
    if a + b <= 0xff then Ok(a + b)
    else if build.Debug? then Err(AddOverflow)
    else Ok(a + b - 0x100)
  }

  /** `a -= b` on `u8`. */
  function SubU8(build: Build, a: Byte, b: Byte): (r: Result<Byte, Panic>)
    ensures r.Err? <==> build.Debug? && a < b
    ensures r.Err? ==> r.error == SubOverflow
    ensures r.Ok? ==> (r.value + b) % 0x100 == a
  {
    if b <= a then Ok(a - b)
    else if build.Debug? then Err(SubOverflow)
    else Ok(a - b + 0x100)
  }

  /** `x += 1` on `i32`. */
  function IncI32(build: Build, x: I32): (r: Result<I32, Panic>)
    ensures r.Err? <==> build.Debug? && x == I32Max
    ensures r.Err? ==> r.error == CycleOverflow
    ensures r.Ok? ==> (r.value - x - 1) % 0x1_0000_0000 == 0
    ensures r.Ok? && x < I32Max ==> r.value == x + 1
  {
    if x < I32Max then Ok(x + 1)
    else if build.Debug? then Err(CycleOverflow)
    else Ok(I32Min)
  }

  /** Subtracting what was just added gives back the original value, in
      both build profiles. */
  lemma SubUndoesAdd(build: Build, a: Byte, b: Byte)
    ensures AddU8(build, a, b).Ok? ==> SubU8(build, AddU8(build, a, b).value, b) == Ok(a)
  {
  }

  /** Adding what was just subtracted gives back the original value. */
  lemma AddUndoesSub(build: Build, a: Byte, b: Byte)
    ensures SubU8(build, a, b).Ok? ==> AddU8(build, SubU8(build, a, b).value, b) == Ok(a)
  {
  }

  /** When a debug build does not panic it computes what a release build
      computes; a release build never panics. */
  lemma DebugAgreesWithRelease(a: Byte, b: Byte, x: I32)
    ensures AddU8(Release, a, b).Ok? && SubU8(Release, a, b).Ok? && IncI32(Release, x).Ok?
    ensures AddU8(Debug, a, b).Ok? ==> AddU8(Debug, a, b) == AddU8(Release, a, b)
    ensures SubU8(Debug, a, b).Ok? ==> SubU8(Debug, a, b) == SubU8(Release, a, b)
    ensures IncI32(Debug, x).Ok? ==> IncI32(Debug, x) == IncI32(Release, x)
  {
  }
}

/**
 * Machine-level vocabulary shared by the sysfs layer and the APERF/MPERF tool:
 * fixed-width unsigned integers, the errno codes the library returns, an
 * Option type for pointers that may be NULL, and C-string truncation.
 */
module CTypes {

  const TWO32: int := 0x1_0000_0000
  const TWO64: int := 0x1_0000_0000_0000_0000
  const ULONG_MAX: int := TWO64 - 1

  /** `unsigned int` on the target (32 bits). */
  type u32 = x: int | 0 <= x < 0x1_0000_0000

  /** `unsigned long`, `uint64_t` and `unsigned long long` on the target (64 bits). */
  type u64 = x: int | 0 <= x < 0x1_0000_0000_0000_0000

  /** Linux errno values returned negated by the library. */
  const ENODEV: int := 19
  const EINVAL: int := 22

  /** A value, or the NULL pointer. */
  datatype Option<+T> = None | Some(value: T)

  /** Conversion of an arbitrary integer to a 64-bit unsigned value (wrap-around). */
  function Wrap64(x: int): (r: u64)
    ensures 0 <= x < TWO64 ==> r == x
  {
    x % TWO64
  }

  /** Conversion of an arbitrary integer to a 32-bit unsigned value (truncation). */
  function Wrap32(x: int): (r: u32)
    ensures 0 <= x < TWO32 ==> r == x
  {
    x % TWO32
  }

  /** The C string a character buffer denotes: everything before its first NUL. */
  function CStr(s: string): (r: string)
    ensures r <= s
    ensures '\0' !in r
    ensures |r| < |s| ==> s[|r|] == '\0'
  {
    if s == [] || s[0] == '\0' then [] else [s[0]] + CStr(s[1..])
  }

  /** A buffer without NUL denotes itself as a C string. */
  lemma CStrOfPlain(s: string)
    requires '\0' !in s
    ensures CStr(s) == s
  {
  }

  /** Sequence concatenation regroups freely. */
  lemma ConcatAssoc<T>(a: seq<T>, b: seq<T>, c: seq<T>)
    ensures a + (b + c) == (a + b) + c
  {
  }
}

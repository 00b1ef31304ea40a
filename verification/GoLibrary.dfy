/** What several models need of Go's types and standard library. */
module GoLibrary {

  type byte = bv8

  const INT64_MIN: int := -0x8000_0000_0000_0000
  const INT64_MAX: int := 0x7fff_ffff_ffff_ffff

  predicate IsInt64(x: int) {
    INT64_MIN <= x <= INT64_MAX
  }

  /** `strings.HasPrefix`. */
  predicate HasPrefix(s: string, prefix: string) {
    |prefix| <= |s| && s[..|prefix|] == prefix
  }
}

/**
 * Small building blocks shared by the other modules: an optional value (for
 * JavaScript's undefined and for a search that finds nothing) and the string
 * prefix test.
 */
module Text {

  datatype Option<T> = None | Some(value: T)

  /** `s` begins with `prefix` (JavaScript's `String.prototype.startsWith`). */
  predicate StartsWith(s: string, prefix: string) {
    |prefix| <= |s| && s[..|prefix|] == prefix
  }
}

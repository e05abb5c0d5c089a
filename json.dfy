/**
 * A JSON value read where the scripts expect a string: the key may be
 * missing, hold null, or hold a string. Indexing with `[...]` raises only for
 * a missing key. `.get(key)` without a default gives None for both; with a
 * default, only a missing key yields the default and a null is returned as is.
 */
module Json {
  datatype JsonText = Absent | Null | Text(s: string)
}

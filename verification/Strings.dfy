/** Occurrences of one text in another, shared by redaction and validation. */
module Strings {

  predicate OccursAt(v: string, s: string, i: nat) {
    i + |v| <= |s| && s[i..i + |v|] == v
  }

  predicate Occurs(v: string, s: string) {
    exists i: nat | i <= |s| :: OccursAt(v, s, i)
  }
}

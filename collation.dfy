/**
 * SQLite compares TEXT values with the BINARY collation: the UTF-8 bytes are
 * compared with memcmp and, on a common prefix, the shorter string sorts first.
 * UTF-8 preserves the order of code points, so on Dafny strings (sequences of
 * Unicode scalar values) this is the lexicographic order on characters.
 */
module Collation {

  /** `a <= b` under SQLite's BINARY collation. */
  predicate BinaryLe(a: string, b: string)
  {
    if a == [] then true
    else if b == [] then false
    else if a[0] != b[0] then a[0] < b[0]
    else BinaryLe(a[1..], b[1..])
  }

  lemma {:induction false} BinaryLeReflexive(a: string)
    ensures BinaryLe(a, a)
  {
    if a != [] {
      BinaryLeReflexive(a[1..]);
    }
  }

  /** Any two texts are comparable, so ORDER BY over them is well defined. */
  lemma {:induction false} BinaryLeTotal(a: string, b: string)
    ensures BinaryLe(a, b) || BinaryLe(b, a)
  {
    if a != [] && b != [] && a[0] == b[0] {
      BinaryLeTotal(a[1..], b[1..]);
    }
  }

  lemma {:induction false} BinaryLeTransitive(a: string, b: string, c: string)
    requires BinaryLe(a, b) && BinaryLe(b, c)
    ensures BinaryLe(a, c)
  {
    if a != [] && b != [] && c != [] && a[0] == b[0] && b[0] == c[0] {
      BinaryLeTransitive(a[1..], b[1..], c[1..]);
    }
  }

  /** Two texts that collate equal are the same text (BINARY has no ties). */
  lemma {:induction false} BinaryLeAntisymmetric(a: string, b: string)
    requires BinaryLe(a, b) && BinaryLe(b, a)
    ensures a == b
  {
    if a != [] && b != [] {
      BinaryLeAntisymmetric(a[1..], b[1..]);
      assert a == [a[0]] + a[1..];
      assert b == [b[0]] + b[1..];
    }
  }
}

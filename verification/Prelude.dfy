/** Shared vocabulary: optional values, bytes, and a few facts about finite collections. */
module Prelude {
  datatype Option<+T> = None | Some(value: T)

  type Byte = x: int | 0 <= x < 256
  type Bytes = seq<Byte>

  const TWO_TO_THE_32 := 0x1_0000_0000

  function Min(a: int, b: int): int {
    if a <= b then a else b
  }

  function Max(a: int, b: int): int {
    if a <= b then b else a
  }

  /** `m` without the key `k` (JavaScript's `Map.delete`). */
  function Without<K, V>(m: map<K, V>, k: K): map<K, V> {
    m - {k}
  }

  ghost predicate Distinct<T>(s: seq<T>) {
    forall i, j :: 0 <= i < j < |s| ==> s[i] != s[j]
  }
}

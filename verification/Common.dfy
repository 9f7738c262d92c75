/** Shared basics: bytes, optional values and concatenation. */
module Common {

  newtype byte = x: int | 0 <= x < 256

  type Bytes = seq<byte>

  /** The largest `long long`: no file size or offset exceeds it. */
  const LLONG_MAX: nat := 0x7FFF_FFFF_FFFF_FFFF

  /** The size of every buffer for a path. */
  const PATH_SIZE: nat := 1024

  /** What is left of a string in a buffer that holds n characters. */
  function Cut(s: string, n: nat): string { if |s| <= n then s else s[..n] }

  datatype Option<+T> = None | Some(value: T)

  function Flatten<T>(parts: seq<seq<T>>): seq<T> {
    if parts == [] then [] else parts[0] + Flatten(parts[1..])
  }

  lemma {:induction false} FlattenSnoc<T>(parts: seq<seq<T>>, last: seq<T>)
    ensures Flatten(parts + [last]) == Flatten(parts) + last
  {
    if parts == [] {
      assert Flatten([last]) == last + Flatten<T>([]);
    } else {
      FlattenSnoc(parts[1..], last);
      assert (parts + [last])[1..] == parts[1..] + [last];
    }
  }

  /** Concatenation is associative. */
  lemma Regroup<T>(a: seq<T>, b: seq<T>, c: seq<T>)
    ensures a + (b + c) == a + b + c
  {
  }
}

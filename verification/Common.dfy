/** Small vocabulary shared by every part of the model. */
module Common {

  datatype Option<+T> = None | Some(value: T)

  datatype Result<+T, +E> = Ok(value: T) | Err(error: E)

  newtype Byte = x: int | 0 <= x < 256
  type Bytes = seq<Byte>

  /** A SHA-256 digest, represented by the bytes that it is taken of. */
  datatype Digest = Digest(of: Bytes)

  /** A timestamp that carries an offset; `utc` says that the offset is zero. */
  datatype Stamp<T> = Stamp(instant: T, utc: bool)

  /** Every entry of `a` is an entry of `b`. */
  ghost predicate Submap<K, V>(a: map<K, V>, b: map<K, V>) {
    forall k :: k in a ==> k in b && b[k] == a[k]
  }

  lemma Associate<T>(a: seq<T>, b: seq<T>, c: seq<T>)
    ensures a + (b + c) == (a + b) + c
  {
  }

  lemma SubsetSize<T>(a: set<T>, b: set<T>)
    requires a <= b
    ensures |a| <= |b|
  {
    assert b == a + (b - a);
  }
}

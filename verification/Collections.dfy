/** Stock definitions that several models share. */
module Collections {
  datatype Option<+T> = None | Some(value: T)

  /** A sequence without its `i`-th element. */
  function Without<T>(s: seq<T>, i: nat): seq<T>
    requires i < |s|
  {
    s[..i] + s[i + 1..]
  }

  lemma Assoc<T>(a: seq<T>, b: seq<T>, c: seq<T>)
    ensures (a + b) + c == a + (b + c)
  {}
}

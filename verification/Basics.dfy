/** Small datatypes shared by the whole project. */
module Basics {

  type Byte = b: nat | b < 256

  datatype Option<+T> = None | Some(value: T)

  datatype Result<+T, +E> = Ok(value: T) | Err(error: E)

  lemma ConcatAssoc<T>(a: seq<T>, b: seq<T>, c: seq<T>)
    ensures a + b + c == a + (b + c)
  {
  }

  lemma InitOfConcat<T>(a: seq<T>, b: seq<T>)
    requires b != []
    ensures (a + b)[..|a + b| - 1] == a + b[..|b| - 1] && (a + b)[|a + b| - 1] == b[|b| - 1]
  {
  }

  lemma PrefixUnfold<T>(s: seq<T>, i: nat)
    requires 1 <= i <= |s|
    ensures s[..i] == [s[0]] + s[1..][..i - 1]
  {
  }
}

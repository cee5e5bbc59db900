/** Types shared by every part of the model. */
module Prelude {
  datatype Option<+T> = None | Some(value: T)

  type Byte = b: int | 0 <= b < 256

  /** Context ids; 0 is the master. */
  type Id = nat

  lemma ConcatTail<T>(a: seq<T>, b: seq<T>)
    requires a != []
    ensures (a + b)[0] == a[0] && (a + b)[1..] == a[1..] + b
  {
  }

  lemma ConcatAssoc<T>(a: seq<T>, b: seq<T>, c: seq<T>)
    ensures a + b + c == a + (b + c)
  {
  }
}

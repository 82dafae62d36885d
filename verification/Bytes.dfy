/** Bytes, byte strings and the option type shared by every component. */
module Bytes {

  type byte = b: int | 0 <= b < 256

  datatype Option<+T> = None | Some(value: T)

  /** The concatenation of a list of sequences, in order. */
  function Flatten<T>(parts: seq<seq<T>>): seq<T>
  {
    if parts == [] then [] else parts[0] + Flatten(parts[1..])
  }

  lemma {:induction false} FlattenConcat<T>(a: seq<seq<T>>, b: seq<seq<T>>)
    ensures Flatten(a + b) == Flatten(a) + Flatten(b)
  {
    if a == [] {
      assert a + b == b;
    } else {
      assert (a + b)[1..] == a[1..] + b;
      FlattenConcat(a[1..], b);
    }
  }

  lemma Associative<T>(a: seq<T>, b: seq<T>, c: seq<T>)
    ensures a + b + c == a + (b + c)
  {
  }

  lemma FlattenSingleton<T>(s: seq<T>)
    ensures Flatten([s]) == s
  {
    assert [s][1..] == [];
  }

  lemma FlattenSnoc<T>(a: seq<seq<T>>, s: seq<T>)
    ensures Flatten(a + [s]) == Flatten(a) + s
  {
    FlattenConcat(a, [s]);
    FlattenSingleton(s);
  }
}

/** Byte strings, and queues of them as one string. */
module Bytes {

  type byte = x: int | 0 <= x < 256

  type Str = seq<byte>

  /** The parts, joined. */
  function Flat(parts: seq<Str>): Str {
    if parts == [] then [] else parts[0] + Flat(parts[1..])
  }

  lemma {:induction false} FlatConcat(a: seq<Str>, b: seq<Str>)
    ensures Flat(a + b) == Flat(a) + Flat(b)
  {
    if a == [] {
      assert a + b == b;
    } else {
      assert (a + b)[1..] == a[1..] + b;
      FlatConcat(a[1..], b);
    }
  }

  lemma FlatOne(s: Str)
    ensures Flat([s]) == s
  {
    assert [s][1..] == [];
  }

  lemma FlatCons(s: Str, parts: seq<Str>)
    ensures Flat([s] + parts) == s + Flat(parts)
  {
    assert ([s] + parts)[1..] == parts;
  }
}

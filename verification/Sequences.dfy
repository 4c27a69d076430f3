/** Small helpers on sequences and numbers. */
module Sequences {

  function Min(a: nat, b: nat): nat {
    if a < b then a else b
  }

  function Flatten<T>(parts: seq<seq<T>>): seq<T> {
    if parts == [] then [] else Flatten(parts[..|parts| - 1]) + parts[|parts| - 1]
  }

  lemma {:induction false} FlattenFront<T>(parts: seq<seq<T>>)
    requires parts != []
    ensures Flatten(parts) == parts[0] + Flatten(parts[1..])
  {
    var n := |parts| - 1;
    if n > 0 {
      FlattenFront(parts[..n]);
      assert parts[1..][..n - 1] == parts[..n][1..];
    } else {
      assert Flatten(parts[..n]) == [] && Flatten(parts[1..]) == [];
    }
  }
}

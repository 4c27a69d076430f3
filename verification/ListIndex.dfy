/** A list kept in a key store: the length under one key, each element under its index. */
module ListIndex {
  import opened Types

  /** The part of the database that belongs to one list. */
  class Store<V> {
    var count: Option<nat>
    var items: map<nat, V>

    constructor ()
      ensures count == None && items == map[]
    {
      count, items := None, map[];
    }

    function Size(): nat
      reads this
    {
      if count.Some? then count.value else 0
    }

    /** Exactly the indices below the stored length are present. */
    ghost predicate Valid()
      reads this
    {
      forall i: nat :: i in items <==> i < Size()
    }

    ghost function Contents(): seq<V>
      requires Valid()
      reads this
    {
      Elements(items, Size())
    }
  }

  ghost function Elements<V>(items: map<nat, V>, n: nat): seq<V>
    requires forall i: nat :: i < n ==> i in items
  {
    seq(n, i requires 0 <= i < n => items[i])
  }

  class ListIndex<V> {
    const base: Store<V>
    var length: Option<nat>  // the cached length

    ghost predicate Valid()
      reads this, base
    {
      base.Valid() && (length.Some? ==> length.value == base.Size())
    }

    ghost function Contents(): seq<V>
      requires Valid()
      reads this, base
    {
      base.Contents()
    }

    /** Opening a list over a store shows what the store holds. */
    constructor (base: Store<V>)
      requires base.Valid()
      ensures Valid() && this.base == base && Contents() == base.Contents()
    {
      this.base := base;
      length := None;
    }

    method Get(index: nat) returns (v: Option<V>)
      requires Valid()
      ensures v == if index < |Contents()| then Some(Contents()[index]) else None
    {
      if index in base.items {
        return Some(base.items[index]);
      }
      return None;
    }

    method Len() returns (n: nat)
      requires Valid()
      modifies this`length
      ensures Valid() && n == |Contents()| && length == Some(n)
      ensures Contents() == old(Contents())
    {
      if length.Some? {
        return length.value;
      }
      n := base.Size();
      length := Some(n);
    }

    method Last() returns (v: Option<V>)
      requires Valid()
      modifies this`length
      ensures Valid() && Contents() == old(Contents())
      ensures v == if Contents() == [] then None else Some(Contents()[|Contents()| - 1])
    {
      var n := Len();
      if n == 0 {
        return None;
      }
      v := Get(n - 1);
    }

    method Push(v: V)
      requires Valid()
      modifies this, base
      ensures Valid() && Contents() == old(Contents()) + [v]
    {
      var n := Len();
      base.items := base.items[n := v];
      base.count := Some(n + 1);
      length := Some(n + 1);
    }

    method Pop() returns (v: Option<V>)
      requires Valid()
      modifies this, base
      ensures Valid()
      ensures v == if old(Contents()) == [] then None else Some(old(Contents())[|old(Contents())| - 1])
      ensures Contents() == if v.None? then [] else old(Contents())[..|old(Contents())| - 1]
    {
      var n := Len();
      if n == 0 {
        return None;
      }
      v := Get(n - 1);
      base.items := base.items - {n - 1};
      base.count := Some(n - 1);
      length := Some(n - 1);
    }

    method Extend(vs: seq<V>)
      requires Valid()
      modifies this, base
      ensures Valid() && Contents() == old(Contents()) + vs
    {
      var n := Len();
      ghost var start := n;
      ghost var before := Contents();
      for k := 0 to |vs|
        invariant n == start + k && base.count == old(base.count) && length == Some(start)
        invariant forall i: nat :: i in base.items <==> i < n
        invariant forall i: nat :: i < n ==> base.items[i] == (before + vs)[i]
      {
        base.items := base.items[n := vs[k]];
        n := n + 1;
      }
      base.count := Some(n);
      length := Some(n);
      assert Contents() == before + vs;
    }

    /** Longer lists are cut to the given length, shorter ones stay. */
    method Truncate(len: nat)
      requires Valid()
      modifies this, base
      ensures Valid()
      ensures Contents() == if len < |old(Contents())| then old(Contents())[..len] else old(Contents())
    {
      var n := Len();
      ghost var before := Contents();
      while n > len
        invariant Valid() && n == |Contents()|
        invariant Contents() == before[..n]
        invariant |before| >= n && (n < |before| ==> n >= len)
      {
        var _ := Pop();
        n := Len();
      }
    }

    /** Out of range is a panic, reported as false; nothing is written then. */
    method Set(index: nat, v: V) returns (ok: bool)
      requires Valid()
      modifies this, base
      ensures Valid() && ok == (index < |old(Contents())|)
      ensures Contents() == if ok then old(Contents())[index := v] else old(Contents())
    {
      var n := Len();
      if index >= n {
        return false;
      }
      base.items := base.items[index := v];
      return true;
    }

    /** A whole session: any operations in any order act as on a plain sequence. */
    method Execute(ops: seq<Op<V>>) returns (answers: seq<Option<V>>)
      requires Valid()
      modifies this, base
      ensures Valid()
      ensures (Contents(), answers) == RunOps(old(Contents()), ops)
    {
      answers := [];
      for k := 0 to |ops|
        invariant Valid()
        invariant (Contents(), answers) == RunOps(old(Contents()), ops[..k])
      {
        var answer := None;
        match ops[k] {
          case OpPush(v) => Push(v);
          case OpPop => answer := Pop();
          case OpExtend(vs) => Extend(vs);
          case OpTruncate(n) => Truncate(n);
          case OpSet(i, v) => var _ := Set(i, v);
          case OpGet(i) => answer := Get(i);
          case OpLast => answer := Last();
        }
        answers := answers + [answer];
        assert ops[..k + 1][..k] == ops[..k];
      }
      assert ops[..|ops|] == ops;
    }
  }

  datatype Op<V> = OpPush(v: V) | OpPop | OpExtend(vs: seq<V>) | OpTruncate(len: nat)
                 | OpSet(index: nat, v: V) | OpGet(index: nat) | OpLast

  /** The same operations on a plain sequence. */
  function RunOp<V>(s: seq<V>, op: Op<V>): (seq<V>, Option<V>) {
    match op
    case OpPush(v) => (s + [v], None)
    case OpPop => if s == [] then (s, None) else (s[..|s| - 1], Some(s[|s| - 1]))
    case OpExtend(vs) => (s + vs, None)
    case OpTruncate(n) => (if n < |s| then s[..n] else s, None)
    case OpSet(i, v) => (if i < |s| then s[i := v] else s, None)
    case OpGet(i) => (s, if i < |s| then Some(s[i]) else None)
    case OpLast => (s, if s == [] then None else Some(s[|s| - 1]))
  }

  function RunOps<V>(s: seq<V>, ops: seq<Op<V>>): (seq<V>, seq<Option<V>>) {
    if ops == [] then (s, [])
    else
      var (t, answers) := RunOps(s, ops[..|ops| - 1]);
      var (u, answer) := RunOp(t, ops[|ops| - 1]);
      (u, answers + [answer])
  }
}

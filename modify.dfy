/** Index-directed modification (the inner `modify_indices` of operator `Z`):
    every index path, paired with its new item, overwrites the position the
    path reaches in a copy of the list. Values are immutable here, so the
    copy is implicit and each overwrite is a functional update along the
    concrete positions the path resolves to. */
module Modify {
  import opened Values
  import opened Arith
  import Indexing

  /** Positions along which a nested list can be entered. */
  ghost predicate Valid(v: Value, addr: seq<int>)
    decreases |addr|
  {
    addr == [] || (v.List? && 0 <= addr[0] < |v.items| && Valid(v.items[addr[0]], addr[1..]))
  }

  /** What lies at the end of a valid address. */
  function At(v: Value, addr: seq<int>): Value
    requires Valid(v, addr)
    decreases |addr|
  {
    if addr == [] then v else At(v.items[addr[0]], addr[1..])
  }

  /** v with item put at the end of a valid, non-empty address; every list
      on the way keeps its length. */
  function Replace(v: Value, addr: seq<int>, item: Value): (r: Value)
    requires addr != [] && Valid(v, addr)
    ensures r.List? && |r.items| == |v.items|
    decreases |addr|
  {
    var pos := addr[0];
    if |addr| == 1 then List(v.items[pos := item])
    else List(v.items[pos := Replace(v.items[pos], addr[1..], item)])
  }

  /** The positions one index path resolves to in the list focus: each
      coordinate taken modulo the length of the list it indexes, stopping
      after the coordinate that reaches an atom or after the last one; a
      path with no coordinates addresses position 0. Converting a
      coordinate with int() fails for a list, and an empty list has no
      position. */
  function Address(focus: Value, path: seq<Value>): (r: Res<seq<int>>)
    requires focus.List?
    ensures r.Ok? ==> r.val != [] && Valid(focus, r.val)
    ensures r.Ok? ==> |r.val| <= if path == [] then 1 else |path|
    ensures r.Ok? && path == [] ==> r.val[0] == 0
    ensures r.Ok? && path != [] ==> path[0].Atom? && r.val[0] == FloorMod(path[0].n, |focus.items|)
    decreases |path|
  {
    var c :- if path == [] then Ok(0) else ToInt(path[0]);
    if focus.items == [] then Fail(ZeroDivision)
    else
      var pos := FloorMod(c, |focus.items|);
      var next := focus.items[pos];
      if next.Atom? || |path| <= 1 then Ok([pos])
      else
        var rest :- Address(next, path[1..]);
        Ok([pos] + rest)
  }

  /** The address of a path, coordinate by coordinate: every coordinate it
      consumes is a number, and position k is that coordinate taken modulo
      the length of the list the first k positions lead to, which is never
      an atom; the address stops at the end of the path or at the first
      atom it reaches. */
  lemma {:induction false} AddressSteps(focus: Value, path: seq<Value>)
    requires focus.List? && path != [] && Address(focus, path).Ok?
    ensures var r := Address(focus, path).val;
      forall k :: 0 <= k < |r| ==>
        path[k].Atom? && Valid(focus, r[..k]) && At(focus, r[..k]).List? && At(focus, r[..k]).items != []
        && r[k] == FloorMod(path[k].n, |At(focus, r[..k]).items|)
    ensures var r := Address(focus, path).val;
      |r| == |path| || At(focus, r).Atom?
    decreases |path|
  {
    var r := Address(focus, path).val;
    var pos := r[0];
    var next := focus.items[pos];
    assert r[..0] == [];
    if |r| == 1 {
      assert At(focus, r) == At(next, r[1..]) && r[1..] == [];
    } else {
      var rest := Address(next, path[1..]).val;
      assert r == [pos] + rest;
      AddressSteps(next, path[1..]);
      forall k | 1 <= k < |r|
        ensures path[k].Atom? && Valid(focus, r[..k]) && At(focus, r[..k]).List?
          && At(focus, r[..k]).items != [] && r[k] == FloorMod(path[k].n, |At(focus, r[..k]).items|)
      {
        assert r[..k][1..] == rest[..k - 1] && r[k] == rest[k - 1] && path[k] == path[1..][k - 1];
      }
      assert r[1..] == rest;
    }
  }

  /** The position an overwrite resolves to holds what following the path
      with func_index reads, the item the new value is derived from. */
  lemma {:induction false} AddressWalk(focus: Value, path: seq<Value>)
    requires focus.List? && path != [] && Address(focus, path).Ok?
    requires forall i :: 0 <= i < |path| ==> path[i].Atom?
    ensures Indexing.Walk(focus, Indexing.Coordinates(path)) == Ok(At(focus, Address(focus, path).val))
    decreases |path|
  {
    var r := Address(focus, path).val;
    var cs := Indexing.Coordinates(path);
    var next := focus.items[r[0]];
    assert cs[1..] == Indexing.Coordinates(path[1..]);
    if |r| == 1 {
      assert r[1..] == [];
      if next.List? {
        assert cs[1..] == [];
      }
    } else {
      AddressWalk(next, path[1..]);
      assert r[1..] == Address(next, path[1..]).val;
    }
  }

  /** One overwrite: an atom is replaced outright; a list gets the item at
      the position its path resolves to. */
  function Put(a: Value, index: Value, item: Value): (r: Res<Value>)
    ensures a.Atom? ==> r == Ok(item)
    ensures a.List? && r.Ok? ==> r.val.List? && |r.val.items| == |a.items|
  {
    if a.Atom? then Ok(item)
    else
      var addr :- Address(a, Elements(index));
      Ok(Replace(a, addr, item))
  }

  /** The overwrites in order, each on the result of the ones before. */
  function PutAll(a: Value, pairs: seq<(Value, Value)>): Res<Value>
    decreases |pairs|
  {
    if pairs == [] then Ok(a)
    else
      var b :- Put(a, pairs[0].0, pairs[0].1);
      PutAll(b, pairs[1..])
  }

  function Zip(xs: seq<Value>, ys: seq<Value>): (r: seq<(Value, Value)>)
    ensures |r| == if |xs| < |ys| then |xs| else |ys|
    ensures forall i :: 0 <= i < |r| ==> r[i] == (xs[i], ys[i])
  {
    var n := if |xs| < |ys| then |xs| else |ys|;
    seq(n, i requires 0 <= i < n => (xs[i], ys[i]))
  }

  /** The pairs modify_indices works through: an atom index is one path with
      one new item; a single atom item stands for one copy per path; paths
      and items are paired up to the shorter list. */
  function Pairs(indices: Value, newItems: Value): seq<(Value, Value)> {
    if indices.Atom? then [(indices, newItems)]
    else if newItems.Atom? then Zip(indices.items, seq(|indices.items|, _ => newItems))
    else Zip(indices.items, newItems.items)
  }

  /** modify_indices once the paths and the new items are known: the list a
      with each new item written over the position of its path; a list keeps
      its length. */
  function ModifyIndices(a: Value, indices: Value, newItems: Value): (r: Res<Value>)
    ensures a.List? && r.Ok? ==> r.val.List? && |r.val.items| == |a.items|
  {
    var r := PutAll(a, Pairs(indices, newItems));
    if a.List? && r.Ok? then PutAllLength(a, Pairs(indices, newItems)); r else r
  }

  /** The loop of modify_indices over the pairs. */
  method ModifyLoop(a: Value, indices: Value, newItems: Value) returns (r: Res<Value>)
    ensures r == ModifyIndices(a, indices, newItems)
  {
    var pairs := Pairs(indices, newItems);
    var acc := a;
    var i := 0;
    while i < |pairs|
      invariant 0 <= i <= |pairs|
      invariant PutAll(acc, pairs[i..]) == PutAll(a, pairs)
    {
      assert pairs[i..][1..] == pairs[i + 1..];
      var next :- Put(acc, pairs[i].0, pairs[i].1);
      acc := next;
      i := i + 1;
    }
    r := Ok(acc);
  }

  /** After an overwrite, the addressed position holds the new item. */
  lemma {:induction false} ReplaceAt(v: Value, addr: seq<int>, item: Value)
    requires addr != [] && Valid(v, addr)
    ensures Valid(Replace(v, addr, item), addr) && At(Replace(v, addr, item), addr) == item
    decreases |addr|
  {
    var r := Replace(v, addr, item);
    if |addr| > 1 {
      ReplaceAt(v.items[addr[0]], addr[1..], item);
      assert r.items[addr[0]] == Replace(v.items[addr[0]], addr[1..], item);
    } else {
      assert addr[1..] == [];
    }
  }

  /** Two addresses part ways: they differ at a position both reach. */
  predicate Diverge(p: seq<int>, q: seq<int>) {
    exists i :: 0 <= i < |p| && i < |q| && p[i] != q[i]
  }

  /** An overwrite leaves every position whose address parts ways with the
      overwritten one as it was. */
  lemma {:induction false} ReplaceElsewhere(v: Value, addr: seq<int>, item: Value, q: seq<int>)
    requires addr != [] && Valid(v, addr) && Valid(v, q) && Diverge(addr, q)
    ensures Valid(Replace(v, addr, item), q) && At(Replace(v, addr, item), q) == At(v, q)
    decreases |addr|
  {
    var r := Replace(v, addr, item);
    var i :| 0 <= i < |addr| && i < |q| && addr[i] != q[i];
    if addr[0] != q[0] {
      assert r.items[q[0]] == v.items[q[0]];
    } else {
      assert i > 0;
      assert addr[1..][i - 1] != q[1..][i - 1];
      ReplaceElsewhere(v.items[addr[0]], addr[1..], item, q[1..]);
      assert r.items[q[0]] == Replace(v.items[addr[0]], addr[1..], item);
    }
  }

  /** One overwrite of a list by a path: the item lands at the position the
      path resolves to, every position that parts ways with it keeps its
      value, and the list keeps its length. */
  lemma PutEffect(a: Value, index: Value, item: Value, q: seq<int>)
    requires a.List? && Put(a, index, item).Ok? && Valid(a, q)
    ensures var addr := Address(a, Elements(index)).val;
      var r := Put(a, index, item).val;
      r.List? && |r.items| == |a.items| && Valid(r, addr) && At(r, addr) == item
      && (Diverge(addr, q) ==> Valid(r, q) && At(r, q) == At(a, q))
  {
    var addr := Address(a, Elements(index)).val;
    ReplaceAt(a, addr, item);
    if Diverge(addr, q) {
      ReplaceElsewhere(a, addr, item, q);
    }
  }

  /** Whether the path of index leaves the top-level position j of a list of
      length n alone: an empty path selects position 0, any other path the
      position its first coordinate gives modulo n. */
  predicate Avoids(n: nat, index: Value, j: int) {
    var path := Elements(index);
    if path == [] then j != 0
    else path[0].List? || n == 0 || FloorMod(path[0].n, n) != j
  }

  /** One overwrite leaves a top-level position its path avoids as it was. */
  lemma PutKeeps(a: Value, index: Value, item: Value, j: int)
    requires a.List? && Put(a, index, item).Ok? && 0 <= j < |a.items| && Avoids(|a.items|, index, j)
    ensures Put(a, index, item).val.items[j] == a.items[j]
  {
    var addr := Address(a, Elements(index)).val;
    assert addr[0] != j;
  }

  /** The overwrites of a list keep its length. */
  lemma {:induction false} PutAllLength(a: Value, pairs: seq<(Value, Value)>)
    requires a.List? && PutAll(a, pairs).Ok?
    ensures PutAll(a, pairs).val.List? && |PutAll(a, pairs).val.items| == |a.items|
    decreases |pairs|
  {
    if pairs != [] {
      PutAllLength(Put(a, pairs[0].0, pairs[0].1).val, pairs[1..]);
    }
  }

  /** The overwrites of a list leave a top-level position that every path
      avoids as it was. */
  lemma {:induction false} PutAllKeeps(a: Value, pairs: seq<(Value, Value)>, j: int)
    requires a.List? && PutAll(a, pairs).Ok? && 0 <= j < |a.items|
    requires forall k :: 0 <= k < |pairs| ==> Avoids(|a.items|, pairs[k].0, j)
    ensures PutAll(a, pairs).val.List? && |PutAll(a, pairs).val.items| == |a.items|
      && PutAll(a, pairs).val.items[j] == a.items[j]
    decreases |pairs|
  {
    PutAllLength(a, pairs);
    if pairs != [] {
      var b := Put(a, pairs[0].0, pairs[0].1).val;
      PutKeeps(a, pairs[0].0, pairs[0].1, j);
      forall k | 0 <= k < |pairs[1..]|
        ensures Avoids(|b.items|, pairs[1..][k].0, j)
      {
        assert pairs[1..][k] == pairs[k + 1];
      }
      PutAllKeeps(b, pairs[1..], j);
    }
  }

  /** modify_indices changes no top-level position of a list that none of
      its paths selects. */
  lemma ModifyKeeps(a: Value, indices: Value, newItems: Value, j: int)
    requires a.List? && ModifyIndices(a, indices, newItems).Ok? && 0 <= j < |a.items|
    requires forall k :: 0 <= k < |Pairs(indices, newItems)| ==> Avoids(|a.items|, Pairs(indices, newItems)[k].0, j)
    ensures ModifyIndices(a, indices, newItems).val.items[j] == a.items[j]
  {
    PutAllKeeps(a, Pairs(indices, newItems), j);
  }
}

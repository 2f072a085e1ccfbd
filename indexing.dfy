/** Index paths: unary `@` lists the path to every atom of a nested list,
    and binary `@` follows a path with modular indexing. Following the k-th
    path leads to the k-th atom of the flattened list. */
module Indexing {
  import opened Values
  import opened Arith

  /** Every path in ps with i put in front. */
  function Prefixed(i: int, ps: seq<seq<int>>): (r: seq<seq<int>>)
    ensures |r| == |ps| && forall k :: 0 <= k < |ps| ==> r[k] == [i] + ps[k]
  {
    seq(|ps|, k requires 0 <= k < |ps| => [i] + ps[k])
  }

  /** The paths to the atoms of the item at position i: [i] for an atom,
      i before each path inside a list. */
  function ItemPaths(i: int, v: Value): (r: seq<seq<int>>)
    ensures |r| == |Flatten(v)|
    decreases v
  {
    match v
    case Atom(_, _) => [[i]]
    case List(xs) => Prefixed(i, PathsFrom(xs, 0))
  }

  /** The paths to the atoms of the items of xs, the first item being at
      position start. */
  function PathsFrom(xs: seq<Value>, start: int): (r: seq<seq<int>>)
    ensures |r| == |FlattenSeq(xs)|
    decreases xs
  {
    if xs == [] then []
    else ItemPaths(start, xs[0]) + PathsFrom(xs[1..], start + 1)
  }

  function PathValue(p: seq<int>): (r: Value)
    ensures r.List? && |r.items| == |p| && forall i :: 0 <= i < |p| ==> r.items[i] == NumAtom(p[i])
  {
    List(NumAtoms(p))
  }

  function PathValues(ps: seq<seq<int>>): (r: seq<Value>)
    ensures |r| == |ps| && forall k :: 0 <= k < |ps| ==> r[k] == PathValue(ps[k])
  {
    seq(|ps|, k requires 0 <= k < |ps| => PathValue(ps[k]))
  }

  /** Unary `@` (func_indices): 0 for an atom; for a list, the path to each of
      its atoms, in order, one per atom of the flattened list. */
  function Indices(a: Value): (r: Value)
    ensures a.Atom? ==> r == NumAtom(0)
    ensures a.List? ==> r.List? && |r.items| == |Flatten(a)|
  {
    match a
    case Atom(_, _) => NumAtom(0)
    case List(xs) => List(PathValues(PathsFrom(xs, 0)))
  }

  /** Following path through b: stop at an atom or at the end of the path;
      otherwise step to the item at the next coordinate modulo the length
      (an empty list has none). */
  function Walk(b: Value, path: seq<int>): (r: Res<Value>)
    ensures b.Atom? ==> r == Ok(b)
    decreases |path|
  {
    if b.Atom? || path == [] then Ok(b)
    else if b.items == [] then Fail(ZeroDivision)
    else Walk(b.items[FloorMod(path[0], |b.items|)], path[1..])
  }

  /** The numbers of a list of atoms. */
  function Coordinates(vs: seq<Value>): (r: seq<int>)
    requires forall i :: 0 <= i < |vs| ==> vs[i].Atom?
    ensures |r| == |vs| && forall i :: 0 <= i < |vs| ==> r[i] == vs[i].n
  {
    seq(|vs|, i requires 0 <= i < |vs| => vs[i].n)
  }

  /** Binary `@` (func_index): an atom b is its own item; an atom index takes
      one step; a list index is flattened and followed as a path. */
  function Index(a: Value, b: Value): (r: Res<Value>)
    ensures b.Atom? ==> r == Ok(b)
    ensures b.List? && b.items == [] && (a.Atom? || Flatten(a) != []) ==> r.Fail?
  {
    if b.Atom? then Ok(b)
    else if a.Atom? then
      if b.items == [] then Fail(ZeroDivision) else Ok(b.items[FloorMod(a.n, |b.items|)])
    else Walk(b, Coordinates(Flatten(a)))
  }

  /** func_index: the loop over the flattened index, stepping into b and
      stopping as soon as it reaches an atom. */
  method FuncIndex(a: Value, b: Value) returns (r: Res<Value>)
    ensures r == Index(a, b)
  {
    if b.Atom? {
      return Ok(b);
    }
    if a.Atom? {
      if b.items == [] {
        return Fail(ZeroDivision);
      }
      return Ok(b.items[FloorMod(a.n, |b.items|)]);
    }
    var path := Coordinates(Flatten(a));
    var focus := b;
    var i := 0;
    while i < |path|
      invariant 0 <= i <= |path| && focus.List?
      invariant Walk(focus, path[i..]) == Walk(b, path)
      decreases |path| - i
    {
      if focus.items == [] {
        return Fail(ZeroDivision);
      }
      assert path[i..][1..] == path[i + 1..];
      focus := focus.items[FloorMod(path[i], |focus.items|)];
      i := i + 1;
      if focus.Atom? {
        return Ok(focus);
      }
    }
    r := Ok(focus);
  }

  /** Following the k-th path of the items xs of ys (xs starting at position
      start of ys) gives the k-th atom of their flattening. */
  lemma {:induction false} WalkPathsFrom(ys: seq<Value>, xs: seq<Value>, start: nat, k: nat)
    requires start <= |ys| && xs == ys[start..] && k < |PathsFrom(xs, start)|
    ensures Walk(List(ys), PathsFrom(xs, start)[k]) == Ok(FlattenSeq(xs)[k])
    decreases xs
  {
    var head := ItemPaths(start, xs[0]);
    var p := PathsFrom(xs, start)[k];
    assert FlattenSeq(xs) == Flatten(xs[0]) + FlattenSeq(xs[1..]);
    if k < |head| {
      assert p == head[k];
      ModSmall(start, |ys|);
      assert ys[start] == xs[0];
      match xs[0]
      case Atom(_, _) =>
        assert p == [start];
      case List(zs) =>
        var inner := PathsFrom(zs, 0);
        assert p == [start] + inner[k];
        assert p[1..] == inner[k];
        WalkPathsFrom(zs, zs, 0, k);
        assert zs[0..] == zs;
    } else {
      assert ys[start + 1..] == xs[1..];
      WalkPathsFrom(ys, xs[1..], start + 1, k - |head|);
    }
  }

  /** Unary and binary `@` fit together: indexing a list by its k-th path
      gives its k-th atom. */
  lemma IndexByPaths(b: Value, k: nat)
    requires b.List? && k < |Indices(b).items|
    ensures Index(Indices(b).items[k], b) == Ok(Flatten(b)[k])
  {
    var p := PathsFrom(b.items, 0)[k];
    var pv := PathValue(p);
    assert Indices(b).items[k] == pv;
    FlattenPath(p);
    assert b.items[0..] == b.items;
    WalkPathsFrom(b.items, b.items, 0, k);
  }

  /** A path value flattens to its coordinates. */
  lemma FlattenPath(p: seq<int>)
    ensures Coordinates(Flatten(PathValue(p))) == p
  {
    FlattenAtoms(NumAtoms(p));
  }

  lemma {:induction false} FlattenAtoms(vs: seq<Value>)
    requires forall i :: 0 <= i < |vs| ==> vs[i].Atom?
    ensures FlattenSeq(vs) == vs
  {
    if vs != [] {
      FlattenAtoms(vs[1..]);
      assert vs == [vs[0]] + vs[1..];
    }
  }
}

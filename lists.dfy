/** The list built-ins of the vocabulary: equality and the orderings, the
    head/tail pair, reverse and rotate, append, the filters behind
    intersection and without, min and max, and the conversions between a
    mask and a list of indices. Atoms are compared by tag, then by number;
    which tag sorts first is a parameter (`charFirst`), since the value
    library that fixes it is not part of this model. */
module Lists {
  import opened Values
  import opened Arith

  function Bool(b: bool): Value {
    NumAtom(if b then 1 else 0)
  }

  // ---------------------------------------------------------------------
  // Equality and ordering

  /** `=` (func_equals): 1 exactly when the two values are equal; an atom and
      a list are never equal, so the source's separate test for that case
      gives the same answer. */
  function Equals(a: Value, b: Value): (r: Value)
    ensures r == Bool(a == b)
  {
    if a.Atom? != b.Atom? then NumAtom(0) else Bool(a == b)
  }

  function TagRank(t: Tag, charFirst: bool): int {
    if (t == Char) == charFirst then 0 else 1
  }

  /** Atoms are ordered by tag, then by number. */
  predicate AtomLess(x: Value, y: Value, charFirst: bool)
    requires x.Atom? && y.Atom?
  {
    TagRank(x.tag, charFirst) < TagRank(y.tag, charFirst)
    || (x.tag == y.tag && x.n < y.n)
  }

  const Incomparable := OutsideModel("ordering between an atom and a list")

  /** Python's `a < b` on values: atoms by AtomLess, lists by the first
      position where they differ, or by length when one is a prefix of the
      other; an atom and a list have no order in this model. */
  function Less(a: Value, b: Value, charFirst: bool): Res<bool>
    decreases a
  {
    match (a, b)
    case (Atom(_, _), Atom(_, _)) => Ok(AtomLess(a, b, charFirst))
    case (List(xs), List(ys)) => LessSeq(xs, ys, charFirst)
    case _ => Fail(Incomparable)
  }

  function LessSeq(xs: seq<Value>, ys: seq<Value>, charFirst: bool): Res<bool>
    decreases xs
  {
    if xs == [] then Ok(ys != [])
    else if ys == [] then Ok(false)
    else if xs[0] == ys[0] then LessSeq(xs[1..], ys[1..], charFirst)
    else Less(xs[0], ys[0], charFirst)
  }

  /** Lists compare lexicographically: a proper prefix is below the longer
      list. */
  lemma {:induction false} LessSeqPrefix(xs: seq<Value>, ys: seq<Value>, charFirst: bool)
    requires |xs| < |ys| && xs == ys[..|xs|]
    ensures LessSeq(xs, ys, charFirst) == Ok(true)
    decreases xs
  {
    if xs != [] {
      assert xs[0] == ys[0];
      assert xs[1..] == ys[1..][..|xs[1..]|];
      LessSeqPrefix(xs[1..], ys[1..], charFirst);
    }
  }

  /** Past a common prefix, the first position where two lists differ
      decides their order. */
  lemma {:induction false} LessSeqFirstDifference(xs: seq<Value>, ys: seq<Value>, k: nat, charFirst: bool)
    requires k < |xs| && k < |ys| && xs[..k] == ys[..k] && xs[k] != ys[k]
    ensures LessSeq(xs, ys, charFirst) == Less(xs[k], ys[k], charFirst)
    decreases k
  {
    if k > 0 {
      assert xs[0] == xs[..k][0] == ys[0];
      assert xs[1..][..k - 1] == xs[..k][1..] == ys[1..][..k - 1];
      LessSeqFirstDifference(xs[1..], ys[1..], k - 1, charFirst);
    }
  }

  /** The order is strict and total where it is defined: a comparison that
      succeeds also succeeds the other way round, and exactly one of a < b,
      a == b, b < a holds. */
  lemma {:induction false} LessTrichotomy(a: Value, b: Value, charFirst: bool)
    requires Less(a, b, charFirst).Ok?
    ensures Less(b, a, charFirst).Ok?
    ensures Less(a, b, charFirst).val <==> a != b && !Less(b, a, charFirst).val
    decreases a
  {
    match (a, b)
    case (Atom(_, _), Atom(_, _)) =>
    case (List(xs), List(ys)) =>
      LessSeqTrichotomy(xs, ys, charFirst);
    case _ =>
  }

  lemma {:induction false} LessSeqTrichotomy(xs: seq<Value>, ys: seq<Value>, charFirst: bool)
    requires LessSeq(xs, ys, charFirst).Ok?
    ensures LessSeq(ys, xs, charFirst).Ok?
    ensures LessSeq(xs, ys, charFirst).val <==> xs != ys && !LessSeq(ys, xs, charFirst).val
    decreases xs
  {
    if xs != [] && ys != [] {
      if xs[0] == ys[0] {
        LessSeqTrichotomy(xs[1..], ys[1..], charFirst);
        if xs[1..] == ys[1..] {
          assert xs == [xs[0]] + xs[1..] && ys == [ys[0]] + ys[1..];
        }
      } else {
        LessTrichotomy(xs[0], ys[0], charFirst);
      }
    }
  }

  /** `<` (func_less_than): an atom is below any list, and values of the same
      kind are compared by Less. */
  function LessThan(a: Value, b: Value, charFirst: bool): (r: Res<Value>)
    ensures a.Atom? && b.List? ==> r == Ok(NumAtom(1))
    ensures a.List? && b.Atom? ==> r == Ok(NumAtom(0))
    ensures a.Atom? && b.Atom? ==> r == Ok(Bool(AtomLess(a, b, charFirst)))
    ensures a.List? && b.List? ==> (r.Ok? <==> Less(a, b, charFirst).Ok?)
    ensures a.List? && b.List? && r.Ok? ==> r.val == Bool(Less(a, b, charFirst).val)
  {
    if a.Atom? then
      if b.Atom? then Ok(Bool(AtomLess(a, b, charFirst))) else Ok(NumAtom(1))
    else if b.Atom? then Ok(NumAtom(0))
    else
      var lt :- Less(a, b, charFirst);
      Ok(Bool(lt))
  }

  /** `>` (func_greater_than) is `<` with its arguments exchanged; Python's
      `a > b` on values is taken to be `b < a`. */
  function GreaterThan(a: Value, b: Value, charFirst: bool): (r: Res<Value>)
    ensures r == LessThan(b, a, charFirst)
  {
    if a.Atom? then
      if b.Atom? then Ok(Bool(AtomLess(b, a, charFirst))) else Ok(NumAtom(0))
    else if b.Atom? then Ok(NumAtom(1))
    else
      var gt :- Less(b, a, charFirst);
      Ok(Bool(gt))
  }

  /** `<` decides a strict total order on the values it can compare: no value
      is below itself, and of two different values exactly one is below the
      other. */
  lemma LessThanOrder(a: Value, b: Value, charFirst: bool)
    requires LessThan(a, b, charFirst).Ok?
    ensures LessThan(b, a, charFirst).Ok?
    ensures a == b ==> LessThan(a, b, charFirst) == Ok(NumAtom(0))
    ensures a != b ==> (LessThan(a, b, charFirst) == Ok(NumAtom(1)) <==> LessThan(b, a, charFirst) == Ok(NumAtom(0)))
  {
    if a.List? && b.List? {
      LessTrichotomy(a, b, charFirst);
    }
  }

  /** `m` (func_min): Python's min of two, the second when it is below the
      first. */
  function Min(a: Value, b: Value, charFirst: bool): (r: Res<Value>)
    ensures r.Ok? <==> Less(b, a, charFirst).Ok?
    ensures r.Ok? ==> (r.val == b <==> Less(b, a, charFirst).val || a == b)
  {
    var lt :- Less(b, a, charFirst);
    Ok(if lt then b else a)
  }

  /** `M` (func_max): Python's max of two, the second when it is above the
      first. */
  function Max(a: Value, b: Value, charFirst: bool): (r: Res<Value>)
    ensures r.Ok? <==> Less(a, b, charFirst).Ok?
    ensures r.Ok? ==> (r.val == b <==> Less(a, b, charFirst).val || a == b)
  {
    var gt :- Less(a, b, charFirst);
    Ok(if gt then b else a)
  }

  /** Min and max of two comparable values are the two values, the smaller
      first. */
  lemma MinMax(a: Value, b: Value, charFirst: bool)
    requires Less(b, a, charFirst).Ok?
    ensures Min(a, b, charFirst).Ok? && Max(a, b, charFirst).Ok?
    ensures multiset{Min(a, b, charFirst).val, Max(a, b, charFirst).val} == multiset{a, b}
    ensures Less(Max(a, b, charFirst).val, Min(a, b, charFirst).val, charFirst) == Ok(false)
  {
    LessTrichotomy(b, a, charFirst);
    if a == b {
      LessTrichotomy(a, a, charFirst);
    } else if Less(b, a, charFirst).val {
      LessTrichotomy(a, b, charFirst);
    }
  }

  // ---------------------------------------------------------------------
  // Head, tail, reverse, rotate, append

  /** Unary `<` (func_head_dec): an atom less one, or the first item of a
      list; an empty list has none. */
  function HeadDec(a: Value): (r: Res<Value>)
    ensures a.Atom? ==> r == Ok(Atom(a.tag, a.n - 1))
    ensures a.List? ==> (r.Ok? <==> a.items != [])
  {
    match a
    case Atom(t, n) => Ok(Atom(t, n - 1))
    case List(xs) => if xs == [] then Fail(Raised("list index out of range")) else Ok(xs[0])
  }

  /** Unary `>` (func_tail_inc): an atom plus one, or a list without its
      first item (an empty list stays empty). */
  function TailInc(a: Value): (r: Value)
    ensures a.Atom? ==> r == Atom(a.tag, a.n + 1)
    ensures a.List? ==> r.List? && |r.items| == if a.items == [] then 0 else |a.items| - 1
  {
    match a
    case Atom(t, n) => Atom(t, n + 1)
    case List(xs) => List(if xs == [] then [] else xs[1..])
  }

  /** The two undo each other on atoms, and split a non-empty list into its
      head and its tail. */
  lemma HeadTail(a: Value)
    ensures a.Atom? ==> HeadDec(TailInc(a)) == Ok(a) && TailInc(HeadDec(a).val) == a
    ensures a.List? && a.items != [] ==> [HeadDec(a).val] + TailInc(a).items == a.items
  {
  }

  /** `R` (func_reverse): an atom unchanged, a list in reverse order. */
  function Reverse(a: Value): (r: Value)
    ensures a.Atom? ==> r == a
    ensures a.List? ==> (r.List? && |r.items| == |a.items|
      && forall i :: 0 <= i < |a.items| ==> r.items[i] == a.items[|a.items| - 1 - i])
  {
    match a
    case Atom(_, _) => a
    case List(xs) => List(seq(|xs|, i requires 0 <= i < |xs| => xs[|xs| - 1 - i]))
  }

  /** Reversing twice gives the value back. */
  lemma ReverseInvolution(a: Value)
    ensures Reverse(Reverse(a)) == a
  {
    if a.List? {
      assert Reverse(Reverse(a)).items == a.items;
    }
  }

  /** Binary `R` (func_rotate): an atom or an empty list unchanged; otherwise
      the items from position a mod len(b) on, then the ones before it. */
  function Rotate(a: Value, b: Value): (r: Res<Value>)
    ensures b.Atom? || b.items == [] ==> r == Ok(b)
    ensures b.List? && b.items != [] ==> (r.Ok? <==> a.Atom?)
    ensures r.Ok? && b.List? ==> r.val.List? && |r.val.items| == |b.items|
    ensures r.Ok? && b.List? && b.items != [] ==>
      forall i :: 0 <= i < |b.items| ==> r.val.items[i] == b.items[FloorMod(i + a.n, |b.items|)]
  {
    if b.Atom? || b.items == [] then Ok(b)
    else
      var k :- ToInt(a);
      Ok(List(Rotated(b.items, k)))
  }

  /** The items from position k mod |xs| on, then the ones before it: item
      i of the result is item i + k (mod |xs|). */
  function Rotated(xs: seq<Value>, k: int): (r: seq<Value>)
    requires xs != []
    ensures |r| == |xs|
    ensures forall i :: 0 <= i < |xs| ==> r[i] == xs[FloorMod(i + k, |xs|)]
  {
    var s := FloorMod(k, |xs|);
    RotatedAt(xs, k);
    xs[s..] + xs[..s]
  }

  /** Rotation keeps every item, as often as it occurs. */
  lemma RotatePermutes(a: Value, b: Value)
    requires Rotate(a, b).Ok? && b.List?
    ensures multiset(Rotate(a, b).val.items) == multiset(b.items)
  {
    if b.items != [] {
      var s := FloorMod(a.n, |b.items|);
      assert b.items == b.items[..s] + b.items[s..];
    }
  }

  /** The item at i after rotating by k is the one at (i + k) mod n. */
  lemma RotatedAt(xs: seq<Value>, k: int)
    requires xs != []
    ensures var s := FloorMod(k, |xs|);
      forall i :: 0 <= i < |xs| ==> (xs[s..] + xs[..s])[i] == xs[FloorMod(i + k, |xs|)]
  {
    var n := |xs|;
    var s := FloorMod(k, n);
    forall i | 0 <= i < n
      ensures (xs[s..] + xs[..s])[i] == xs[FloorMod(i + k, n)]
    {
      ModOfSum(k, i, n);
      assert s + i == i + s && k + i == i + k;
      if i < n - s {
        ModSmall(i + s, n);
      } else {
        ModOfSumMultiple(i + s - n, n);
      }
    }
  }

  lemma ModOfSumMultiple(x: int, n: int)
    requires 0 <= x < n
    ensures FloorMod(x + n, n) == x
  {
    DivModUnique(x + n, n, 1, x);
  }

  /** Rotating by a multiple of the length gives the list back. */
  lemma RotateByLength(k: int, b: Value)
    requires b.List?
    ensures Rotate(NumAtom(k * |b.items|), b) == Ok(b)
  {
    var n := |b.items|;
    if n > 0 {
      var r := Rotate(NumAtom(k * n), b).val;
      forall i | 0 <= i < n
        ensures r.items[i] == b.items[i]
      {
        ModOfSum(k * n, i, n);
        ModMultiple(k, n);
        ModSmall(i, n);
      }
      assert r.items == b.items;
    }
  }

  /** Two rotations make one by the sum of the amounts; in particular a
      rotation by -k undoes one by k. */
  lemma RotateCompose(x: int, y: int, b: Value)
    requires b.List?
    ensures Rotate(NumAtom(x), Rotate(NumAtom(y), b).val) == Rotate(NumAtom(x + y), b)
  {
    if b.items != [] {
      var r1 := Rotated(b.items, y);
      RotationsCompose(b.items, r1, Rotated(r1, x), Rotated(b.items, x + y), x, y);
    }
  }

  /** The index arithmetic of RotateCompose, on any three sequences that
      are rotations of b by y, of that by x, and of b by x + y. */
  lemma RotationsCompose(b: seq<Value>, r1: seq<Value>, r2: seq<Value>, r: seq<Value>, x: int, y: int)
    requires |b| > 0 && |r1| == |b| && |r2| == |b| && |r| == |b|
    requires forall j :: 0 <= j < |b| ==> r1[j] == b[FloorMod(j + y, |b|)]
    requires forall j :: 0 <= j < |b| ==> r2[j] == r1[FloorMod(j + x, |b|)]
    requires forall j :: 0 <= j < |b| ==> r[j] == b[FloorMod(j + (x + y), |b|)]
    ensures r2 == r
  {
    var n := |b|;
    forall i | 0 <= i < n
      ensures r2[i] == r[i]
    {
      var j := FloorMod(i + x, n);
      ModShift(i, x, y, n);
      assert r2[i] == r1[j] == b[FloorMod(j + y, n)];
    }
  }

  /** Shifting by x, reducing, then shifting by y reduces to shifting by x + y. */
  lemma ModShift(i: int, x: int, y: int, n: int)
    requires n > 0
    ensures FloorMod(FloorMod(i + x, n) + y, n) == FloorMod(i + (x + y), n)
  {
    ModOfSum(i + x, y, n);
    assert i + x + y == i + (x + y);
  }

  /** Binary `,` (func_append): the items of a, then those of b, an atom
      standing for itself. */
  function Append(a: Value, b: Value): (r: Value)
    ensures r.List? && |r.items| == |Elements(a)| + |Elements(b)|
    ensures r.items[..|Elements(a)|] == Elements(a) && r.items[|Elements(a)|..] == Elements(b)
  {
    List(Elements(a) + Elements(b))
  }

  /** Appending is associative. */
  lemma AppendAssociative(a: Value, b: Value, c: Value)
    ensures Append(Append(a, b), c) == Append(a, Append(b, c))
  {
    var ab, bc := Append(a, b), Append(b, c);
    assert Elements(ab) == Elements(a) + Elements(b);
    assert Elements(bc) == Elements(b) + Elements(c);
    assert (Elements(a) + Elements(b)) + Elements(c) == Elements(a) + (Elements(b) + Elements(c));
  }

  // ---------------------------------------------------------------------
  // Intersection and without

  /** The items of xs whose membership in ys is `member`, in order. */
  function Filter(xs: seq<Value>, ys: seq<Value>, member: bool): (r: seq<Value>)
    ensures |r| <= |xs|
  {
    if xs == [] then []
    else (if (xs[0] in ys) == member then [xs[0]] else []) + Filter(xs[1..], ys, member)
  }

  /** An item is kept exactly when it is in xs and its membership in ys is `member`. */
  lemma {:induction false} FilterMembers(xs: seq<Value>, ys: seq<Value>, member: bool)
    ensures forall x :: x in Filter(xs, ys, member) <==> x in xs && (x in ys) == member
  {
    if xs != [] {
      FilterMembers(xs[1..], ys, member);
      assert xs == [xs[0]] + xs[1..];
    }
  }

  /** Filtering keeps order: the kept items of two lists one after the
      other are those of the first list followed by those of the second. */
  lemma {:induction false} FilterAppend(xs: seq<Value>, zs: seq<Value>, ys: seq<Value>, member: bool)
    ensures Filter(xs + zs, ys, member) == Filter(xs, ys, member) + Filter(zs, ys, member)
    decreases |xs|
  {
    if xs == [] {
      assert xs + zs == zs;
    } else {
      var xz := xs + zs;
      var kept: seq<Value> := if (xs[0] in ys) == member then [xs[0]] else [];
      assert xz[0] == xs[0] && xz[1..] == xs[1..] + zs;
      assert Filter(xz, ys, member) == kept + Filter(xs[1..] + zs, ys, member);
      FilterAppend(xs[1..], zs, ys, member);
      ghost var a, b := Filter(xs[1..], ys, member), Filter(zs, ys, member);
      assert kept + (a + b) == (kept + a) + b;
    }
  }

  /** Binary `n` (func_intersection): the items of a that occur in b. */
  function Intersection(a: Value, b: Value): (r: Value)
    ensures r.List? && forall x :: x in r.items <==> x in Elements(a) && x in Elements(b)
  {
    FilterMembers(Elements(a), Elements(b), true);
    List(Filter(Elements(a), Elements(b), true))
  }

  /** Binary `N` (func_without): the items of a that do not occur in b. */
  function Without(a: Value, b: Value): (r: Value)
    ensures r.List? && forall x :: x in r.items <==> x in Elements(a) && x !in Elements(b)
  {
    FilterMembers(Elements(a), Elements(b), false);
    List(Filter(Elements(a), Elements(b), false))
  }

  lemma {:induction false} FilterPartition(xs: seq<Value>, ys: seq<Value>)
    ensures multiset(Filter(xs, ys, true)) + multiset(Filter(xs, ys, false)) == multiset(xs)
  {
    if xs != [] {
      var x, rest := xs[0], xs[1..];
      FilterPartition(rest, ys);
      assert multiset(xs) == multiset{x} + multiset(rest) by {
        assert xs == [x] + rest;
      }
      if x in ys {
        assert Filter(xs, ys, true) == [x] + Filter(rest, ys, true);
        assert Filter(xs, ys, false) == Filter(rest, ys, false);
      } else {
        assert Filter(xs, ys, true) == Filter(rest, ys, true);
        assert Filter(xs, ys, false) == [x] + Filter(rest, ys, false);
      }
    }
  }

  /** Intersection and without split a's items between them, repeats
      included. */
  lemma IntersectionWithout(a: Value, b: Value)
    ensures multiset(Intersection(a, b).items) + multiset(Without(a, b).items) == multiset(Elements(a))
  {
    FilterPartition(Elements(a), Elements(b));
  }

  // ---------------------------------------------------------------------
  // Masks and indices

  function Copies(x: int, n: int): (r: seq<int>)
    ensures |r| == if n < 0 then 0 else n
    ensures forall i :: 0 <= i < |r| ==> r[i] == x
  {
    if n <= 0 then [] else seq(n, _ => x)
  }

  /** Each position start + i repeated counts[i] times, in order (a negative
      count repeats nothing, as Python's range does). */
  function Expand(counts: seq<int>, start: int): (r: seq<int>)
    ensures forall i :: 0 <= i < |r| ==> start <= r[i] < start + |counts|
    ensures Sorted(r)
  {
    if counts == [] then []
    else Copies(start, counts[0]) + Expand(counts[1..], start + 1)
  }

  /** How often each of 0 .. max occurs in xs. */
  function Mask(xs: seq<int>, max: int): (r: seq<int>)
    ensures |r| == if max < 0 then 0 else max + 1
    ensures forall i :: 0 <= i < |r| ==> r[i] == multiset(xs)[i]
  {
    if max < 0 then [] else seq(max + 1, i => multiset(xs)[i])
  }

  function MaxOf(xs: seq<int>): (m: int)
    requires xs != []
    ensures m in xs && forall i :: 0 <= i < |xs| ==> xs[i] <= m
  {
    if |xs| == 1 then xs[0]
    else
      var m := MaxOf(xs[1..]);
      assert xs == [xs[0]] + xs[1..];
      if xs[0] > m then xs[0] else m
  }

  /** Unary `k` (func_mask_to_indices): each index repeated as often as the
      mask says; an atom count n gives n zeros. */
  function MaskToIndices(a: Value): (r: Res<Value>)
    ensures a.Atom? ==> r == Ok(List(NumAtoms(Copies(0, a.n))))
    ensures a.List? ==> (r.Ok? <==> forall i :: 0 <= i < |a.items| ==> a.items[i].Atom?)
    ensures a.List? && r.Ok? ==> r == Ok(List(NumAtoms(Expand(AtomValues(a.items).val, 0))))
    ensures r.Ok? ==> r.val.List? && forall i, j :: 0 <= i < j < |r.val.items| ==> r.val.items[i].n <= r.val.items[j].n
  {
    match a
    case Atom(_, n) => Ok(List(NumAtoms(Copies(0, n))))
    case List(xs) =>
      var counts :- AtomValues(xs);
      Ok(List(NumAtoms(Expand(counts, 0))))
  }

  /** Unary `K` (func_indices_to_mask): for each of 0 up to the largest
      index, how often it occurs; an atom stands for the one-element list,
      and an empty list has no largest index. */
  function IndicesToMask(a: Value): (r: Res<Value>)
    ensures Elements(a) == [] ==> r.Fail?
  {
    var ix :- AtomValues(Elements(a));
    if ix == [] then Fail(Raised("max() arg is an empty sequence"))
    else Ok(List(NumAtoms(Mask(ix, MaxOf(ix)))))
  }

  lemma CopiesCount(x: int, n: int, v: int)
    ensures multiset(Copies(x, n))[v] == if v == x && n > 0 then n else 0
  {
    if n > 0 {
      if v != x {
        assert v !in multiset(Copies(x, n));
      } else {
        var k := 0;
        while k < n
          invariant 0 <= k <= n
          invariant multiset(Copies(x, n)[..k])[x] == k
        {
          assert Copies(x, n)[..k + 1] == Copies(x, n)[..k] + [x];
          k := k + 1;
        }
        assert Copies(x, n)[..n] == Copies(x, n);
      }
    }
  }

  /** Each position occurs in the expansion as often as its count says. */
  lemma {:induction false} ExpandCount(counts: seq<int>, start: int, v: int)
    requires forall i :: 0 <= i < |counts| ==> counts[i] >= 0
    ensures multiset(Expand(counts, start))[v] ==
      if start <= v < start + |counts| then counts[v - start] else 0
  {
    if counts != [] {
      var head := Copies(start, counts[0]);
      var tail := Expand(counts[1..], start + 1);
      assert Expand(counts, start) == head + tail;
      assert multiset(head + tail) == multiset(head) + multiset(tail);
      ExpandCount(counts[1..], start + 1, v);
      CopiesCount(start, counts[0], v);
      if start + 1 <= v < start + |counts| {
        assert counts[1..][v - (start + 1)] == counts[v - start];
      }
    }
  }

  lemma {:induction false} AtomValuesOfAtoms(xs: seq<int>)
    ensures AtomValues(NumAtoms(xs)) == Ok(xs)
  {
    var r := AtomValues(NumAtoms(xs));
    assert r.Ok?;
    assert r.val == xs;
  }

  /** The largest index in the expansion of a mask whose last count is
      positive is the mask's last position. */
  lemma ExpandMax(counts: seq<int>)
    requires counts != [] && counts[|counts| - 1] > 0
    requires forall i :: 0 <= i < |counts| ==> counts[i] >= 0
    ensures Expand(counts, 0) != [] && MaxOf(Expand(counts, 0)) == |counts| - 1
  {
    var ix := Expand(counts, 0);
    var m := |counts| - 1;
    ExpandCount(counts, 0, m);
    assert multiset(ix)[m] == counts[m - 0] > 0;
    assert m in ix;
    var k :| 0 <= k < |ix| && ix[k] == m;
    var top := MaxOf(ix);
    assert ix[k] <= top;
    var t :| 0 <= t < |ix| && ix[t] == top;
    assert ix[t] < 0 + |counts|;
  }

  /** The round trip from a mask: expanding a mask of non-negative counts
      whose last count is positive and counting the result gives the mask. */
  lemma MaskRoundTrip(counts: seq<int>)
    requires counts != [] && counts[|counts| - 1] > 0
    requires forall i :: 0 <= i < |counts| ==> counts[i] >= 0
    ensures MaskToIndices(List(NumAtoms(counts))) == Ok(List(NumAtoms(Expand(counts, 0))))
    ensures IndicesToMask(List(NumAtoms(Expand(counts, 0)))) == Ok(List(NumAtoms(counts)))
  {
    var ex := Expand(counts, 0);
    AtomValuesOfAtoms(counts);
    AtomValuesOfAtoms(ex);
    assert Elements(List(NumAtoms(ex))) == NumAtoms(ex);
    ExpandMax(counts);
    MaskOfExpand(counts);
    assert Mask(ex, MaxOf(ex)) == counts;
  }

  lemma MaskOfExpand(counts: seq<int>)
    requires counts != []
    requires forall i :: 0 <= i < |counts| ==> counts[i] >= 0
    ensures Mask(Expand(counts, 0), |counts| - 1) == counts
  {
    var mask := Mask(Expand(counts, 0), |counts| - 1);
    forall i | 0 <= i < |counts|
      ensures mask[i] == counts[i]
    {
      MaskOfExpandAt(counts, i);
    }
  }

  /** One position of the mask of an expansion is its count. */
  lemma MaskOfExpandAt(counts: seq<int>, i: int)
    requires 0 <= i < |counts|
    requires forall j :: 0 <= j < |counts| ==> counts[j] >= 0
    ensures Mask(Expand(counts, 0), |counts| - 1)[i] == counts[i]
  {
    var ix := Expand(counts, 0);
    ExpandCount(counts, 0, i);
    assert multiset(ix)[i] == counts[i - 0];
  }

  /** The round trip from indices: the mask of a non-empty list of
      non-negative indices, expanded again, holds the same indices (in
      ascending order). */
  lemma IndicesRoundTrip(ix: seq<int>)
    requires ix != [] && forall i :: 0 <= i < |ix| ==> ix[i] >= 0
    ensures IndicesToMask(List(NumAtoms(ix))) == Ok(List(NumAtoms(Mask(ix, MaxOf(ix)))))
    ensures MaskToIndices(List(NumAtoms(Mask(ix, MaxOf(ix))))) ==
              Ok(List(NumAtoms(Expand(Mask(ix, MaxOf(ix)), 0))))
    ensures multiset(Expand(Mask(ix, MaxOf(ix)), 0)) == multiset(ix)
  {
    AtomValuesOfAtoms(ix);
    AtomValuesOfAtoms(Mask(ix, MaxOf(ix)));
    ExpandOfMask(ix);
  }

  lemma ExpandOfMask(ix: seq<int>)
    requires ix != [] && forall i :: 0 <= i < |ix| ==> ix[i] >= 0
    ensures multiset(Expand(Mask(ix, MaxOf(ix)), 0)) == multiset(ix)
  {
    var ex := Expand(Mask(ix, MaxOf(ix)), 0);
    forall v
      ensures multiset(ex)[v] == multiset(ix)[v]
    {
      ExpandOfMaskAt(ix, v);
    }
  }

  /** One index occurs as often in the expanded mask as in the indices. */
  lemma ExpandOfMaskAt(ix: seq<int>, v: int)
    requires ix != [] && forall i :: 0 <= i < |ix| ==> ix[i] >= 0
    ensures multiset(Expand(Mask(ix, MaxOf(ix)), 0))[v] == multiset(ix)[v]
  {
    var top := MaxOf(ix);
    var mask := Mask(ix, top);
    ExpandCount(mask, 0, v);
    if !(0 <= v <= top) {
      forall j | 0 <= j < |ix|
        ensures ix[j] != v
      {
      }
    }
  }
}

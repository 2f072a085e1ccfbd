/** The operators of the vocabulary that build callables from callables:
    identity/left (`_`), const/flip and curry/precompose (`~`), swap and
    two-sided curry/postcompose (`&`), the hooks `(` `)` and forks `[` `]`,
    fold (`/` on a callable) and index-directed modification (`Z`). Each
    builds its result with variadize: one form for a single argument, one
    for two. A call's result may be Python's `None`, and passing it on
    passes an absent argument. */
module Combinators {
  import opened Values
  import opened Registry
  import opened Indexing
  import opened Modify

  type UnaryFn = Value -> Res<Option<Value>>
  type BinaryFn = (Value, Value) -> Res<Option<Value>>

  /** The rank-threading helpers of the value library, which this model
      does not define: thread_unary(f, rank) and thread_binary(f, rank1,
      rank2). */
  datatype Env = Env(threadUnary: (UnaryFn, int) -> UnaryFn, threadBinary: (BinaryFn, int, int) -> BinaryFn)

  /** A variadic callable from its two forms. */
  function Make(unary: UnaryFn, binary: BinaryFn): (v: Fn)
    ensures v(None, None) == Ok(None)
    ensures forall a :: v(Some(a), None) == unary(a) && v(None, Some(a)) == unary(a)
    ensures forall a, b :: v(Some(a), Some(b)) == binary(a, b)
  {
    Variadize(unary, binary)
  }

  function NotImplemented(what: string): Failure {
    Raised(what + " not implemented.")
  }

  // ---------------------------------------------------------------------
  // `~`: const or flip, curry or precompose

  /** Unary `~` (oper_const_or_flip): a value becomes the callable that
      always returns it; a callable gets its two arguments exchanged. */
  function ConstOrFlip(f: Operand): (r: Fn)
    ensures r(None, None) == Ok(None)
    ensures f.Val? ==> forall a :: r(Some(a), None) == Ok(Some(f.v))
    ensures f.Val? ==> forall a, b :: r(Some(a), Some(b)) == Ok(Some(f.v))
    ensures f.Fun? ==> forall a :: r(Some(a), None) == f.f(Some(a), None)
    ensures f.Fun? ==> forall a, b :: r(Some(a), Some(b)) == f.f(Some(b), Some(a))
  {
    match f
    case Val(v) => Make(a => Ok(Some(v)), (a, b) => Ok(Some(v)))
    case Fun(g) => Make(a => g(Some(a), None), (a, b) => g(Some(b), Some(a)))
  }

  /** Flipping twice gives back the callable on one and on two arguments. */
  lemma FlipTwice(f: Fn, a: Value, b: Value)
    ensures ConstOrFlip(Fun(ConstOrFlip(Fun(f))))(Some(a), None) == f(Some(a), None)
    ensures ConstOrFlip(Fun(ConstOrFlip(Fun(f))))(Some(a), Some(b)) == f(Some(a), Some(b))
  {
    var g := ConstOrFlip(Fun(f));
    assert g(Some(b), Some(a)) == f(Some(a), Some(b));
  }

  /** Binary `~` (oper_curry_or_precompose): two values make their pair; a
      value and a callable make the callable with that value fixed as its
      first (value on the left) or second (value on the right) argument;
      two callables make g after f on one argument and f over g of each
      argument on two. */
  function CurryOrPrecompose(f: Operand, g: Operand): (r: Fn)
    ensures f.Val? && g.Val? ==> forall a :: r(Some(a), None) == Ok(Some(List([f.v, g.v])))
    ensures f.Val? && g.Val? ==> forall a, b :: r(Some(a), Some(b)) == Ok(Some(List([f.v, g.v])))
    ensures f.Val? && g.Fun? ==> forall a :: r(Some(a), None) == g.f(Some(f.v), Some(a))
    ensures f.Val? && g.Fun? ==> forall a, b :: r(Some(a), Some(b)) == g.f(Some(f.v), Some(b))
    ensures f.Fun? && g.Val? ==> forall a :: r(Some(a), None) == f.f(Some(a), Some(g.v))
    ensures f.Fun? && g.Val? ==> forall a, b :: r(Some(a), Some(b)) == f.f(Some(a), Some(g.v))
    ensures f.Fun? && g.Fun? ==> forall a :: (r(Some(a), None) ==
      (var x :- f.f(Some(a), None); g.f(x, None)))
    ensures f.Fun? && g.Fun? ==> forall a, b :: (r(Some(a), Some(b)) ==
      (var x :- g.f(Some(a), None); var y :- g.f(Some(b), None); f.f(x, y)))
  {
    match (f, g)
    case (Val(x), Val(y)) => Make(a => Ok(Some(List([x, y]))), (a, b) => Ok(Some(List([x, y]))))
    case (Val(x), Fun(h)) => Make(a => h(Some(x), Some(a)), (a, b) => h(Some(x), Some(b)))
    case (Fun(h), Val(y)) => Make(a => h(Some(a), Some(y)), (a, b) => h(Some(a), Some(y)))
    case (Fun(h), Fun(k)) =>
      Make(a => (var x :- h(Some(a), None); k(x, None)),
           (a, b) => (var x :- k(Some(a), None); var y :- k(Some(b), None); h(x, y)))
  }

  // ---------------------------------------------------------------------
  // `_`: identity and left

  /** Unary `_` (oper_id): a callable is returned as it is. */
  function OperId(f: Operand): (r: Res<Option<Fn>>)
    ensures f.Val? <==> r.Fail?
    ensures f.Fun? ==> r == Ok(Some(f.f))
  {
    match f
    case Val(_) => Fail(NotImplemented("Unary '_' on values"))
    case Fun(g) => Ok(Some(g))
  }

  /** Binary `_` (oper_left): two callables give the first; a value and a
      callable give the constant callable of the callable's result on the
      value; two values are not implemented. */
  function OperLeft(f: Operand, g: Operand): (r: Res<Option<Fn>>)
    ensures f.Fun? && g.Fun? ==> r == Ok(Some(f.f))
    ensures f.Val? && g.Val? ==> r.Fail?
    ensures f.Val? && g.Fun? ==> (r.Ok? <==> g.f(Some(f.v), None).Ok?)
    ensures f.Val? && g.Fun? && r.Ok? ==> (r.val.Some? &&
      forall a, b :: r.val.value(Some(a), b) == g.f(Some(f.v), None))
    ensures f.Fun? && g.Val? ==> (r.Ok? <==> f.f(Some(g.v), None).Ok?)
    ensures f.Fun? && g.Val? && r.Ok? ==> (r.val.Some? &&
      forall a, b :: r.val.value(Some(a), b) == f.f(Some(g.v), None))
  {
    match (f, g)
    case (Val(_), Val(_)) => Fail(NotImplemented("Binary '_' on values"))
    case (Val(x), Fun(h)) =>
      var y :- h(Some(x), None);
      Ok(Some(Make(a => Ok(y), (a, b) => Ok(y))))
    case (Fun(h), Val(x)) =>
      var y :- h(Some(x), None);
      Ok(Some(Make(a => Ok(y), (a, b) => Ok(y))))
    case (Fun(h), Fun(_)) => Ok(Some(h))
  }

  // ---------------------------------------------------------------------
  // `&`: swap, two-sided curry or postcompose

  /** Unary `&` (oper_swap_arity): on one argument the callable gets it
      twice; on two it gets only the second. */
  function SwapArity(f: Operand): (r: Fn)
    ensures forall a :: r(Some(a), None) == Call(f, Some(a), Some(a))
    ensures forall a, b :: r(Some(a), Some(b)) == Call(f, Some(b), None)
  {
    Make(a => Call(f, Some(a), Some(a)), (a, b) => Call(f, Some(b), None))
  }

  /** Swapping twice makes a single argument go to the one-argument form. */
  lemma SwapTwice(f: Fn, a: Value)
    ensures SwapArity(Fun(SwapArity(Fun(f))))(Some(a), None) == f(Some(a), None)
  {
  }

  /** Binary `&` (oper_twosided_curry_or_postcompose): two callables give f
      after g; a value and a callable give the two-sided curry on one
      argument and its iteration on two (iterate belongs to the value
      library and lies outside the model); two values are not implemented. */
  function TwoSidedOrPostcompose(f: Operand, g: Operand): (r: Res<Option<Fn>>)
    ensures f.Val? && g.Val? ==> r.Fail?
    ensures f.Fun? || g.Fun? ==> r.Ok? && r.val.Some?
    ensures f.Val? && g.Fun? ==> forall a :: (r.val.value(Some(a), None) ==
      (var y :- g.f(Some(a), Some(f.v)); g.f(Some(f.v), y)))
    ensures f.Fun? && g.Val? ==> forall a :: (r.val.value(Some(a), None) ==
      (var x :- f.f(Some(g.v), Some(a)); f.f(x, Some(g.v))))
    ensures f.Val? != g.Val? ==> forall a, b :: r.val.value(Some(a), Some(b)).Fail?
    ensures f.Fun? && g.Fun? ==> forall a :: (r.val.value(Some(a), None) ==
      (var x :- g.f(Some(a), None); f.f(x, None)))
    ensures f.Fun? && g.Fun? ==> forall a, b :: (r.val.value(Some(a), Some(b)) ==
      (var x :- g.f(Some(a), Some(b)); f.f(x, None)))
  {
    match (f, g)
    case (Val(_), Val(_)) => Fail(NotImplemented("Binary '&' on values"))
    case (Val(x), Fun(k)) =>
      Ok(Some(Make(a => (var y :- k(Some(a), Some(x)); k(Some(x), y)),
                   (a, b) => Fail(OutsideModel("iterate")))))
    case (Fun(h), Val(y)) =>
      Ok(Some(Make(a => (var x :- h(Some(y), Some(a)); h(x, Some(y))),
                   (a, b) => Fail(OutsideModel("iterate")))))
    case (Fun(h), Fun(k)) =>
      Ok(Some(Make(a => (var x :- k(Some(a), None); h(x, None)),
                   (a, b) => (var x :- k(Some(a), Some(b)); h(x, None)))))
  }

  /** On one argument, postcomposing f after g is precomposing g before f. */
  lemma PostcomposeIsPrecompose(f: Fn, g: Fn, a: Value)
    ensures TwoSidedOrPostcompose(Fun(f), Fun(g)).val.value(Some(a), None)
      == CurryOrPrecompose(Fun(g), Fun(f))(Some(a), None)
  {
  }

  // ---------------------------------------------------------------------
  // Hooks and forks

  /** Unary `(` (oper_left_unary_hook): [f(a), a] and [f(a), b]. */
  function LeftUnaryHook(f: Operand): (r: Fn)
    ensures forall a :: r(Some(a), None) == (var x :- Call(f, Some(a), None); Pair(x, Some(a)))
    ensures forall a, b :: r(Some(a), Some(b)) == (var x :- Call(f, Some(a), None); Pair(x, Some(b)))
  {
    Make(a => (var x :- Call(f, Some(a), None); Pair(x, Some(a))),
         (a, b) => (var x :- Call(f, Some(a), None); Pair(x, Some(b))))
  }

  /** Binary `(` (oper_left_hook): g(f(a), a) and g(f(a), b). */
  function LeftHook(f: Operand, g: Operand): (r: Fn)
    ensures forall a :: r(Some(a), None) == (var x :- Call(f, Some(a), None); Call(g, x, Some(a)))
    ensures forall a, b :: r(Some(a), Some(b)) == (var x :- Call(f, Some(a), None); Call(g, x, Some(b)))
  {
    Make(a => (var x :- Call(f, Some(a), None); Call(g, x, Some(a))),
         (a, b) => (var x :- Call(f, Some(a), None); Call(g, x, Some(b))))
  }

  /** Unary `)` (oper_right_unary_hook): [a, f(a)] and [a, f(b)]. */
  function RightUnaryHook(f: Operand): (r: Fn)
    ensures forall a :: r(Some(a), None) == (var x :- Call(f, Some(a), None); Pair(Some(a), x))
    ensures forall a, b :: r(Some(a), Some(b)) == (var x :- Call(f, Some(b), None); Pair(Some(a), x))
  {
    Make(a => (var x :- Call(f, Some(a), None); Pair(Some(a), x)),
         (a, b) => (var x :- Call(f, Some(b), None); Pair(Some(a), x)))
  }

  /** Binary `)` (oper_right_hook): f(a, g(a)) and f(a, g(b)). */
  function RightHook(f: Operand, g: Operand): (r: Fn)
    ensures forall a :: r(Some(a), None) == (var x :- Call(g, Some(a), None); Call(f, Some(a), x))
    ensures forall a, b :: r(Some(a), Some(b)) == (var x :- Call(g, Some(b), None); Call(f, Some(a), x))
  {
    Make(a => (var x :- Call(g, Some(a), None); Call(f, Some(a), x)),
         (a, b) => (var x :- Call(g, Some(b), None); Call(f, Some(a), x)))
  }

  /** Unary `[` (oper_left_unary_fork): [f(a), a] and [f(a, b), b]. */
  function LeftUnaryFork(f: Operand): (r: Fn)
    ensures forall a :: r(Some(a), None) == (var x :- Call(f, Some(a), None); Pair(x, Some(a)))
    ensures forall a, b :: r(Some(a), Some(b)) == (var x :- Call(f, Some(a), Some(b)); Pair(x, Some(b)))
  {
    Make(a => (var x :- Call(f, Some(a), None); Pair(x, Some(a))),
         (a, b) => (var x :- Call(f, Some(a), Some(b)); Pair(x, Some(b))))
  }

  /** Binary `[` (oper_left_fork): g(f(a), a) and g(f(a, b), b). */
  function LeftFork(f: Operand, g: Operand): (r: Fn)
    ensures forall a :: r(Some(a), None) == (var x :- Call(f, Some(a), None); Call(g, x, Some(a)))
    ensures forall a, b :: r(Some(a), Some(b)) == (var x :- Call(f, Some(a), Some(b)); Call(g, x, Some(b)))
  {
    Make(a => (var x :- Call(f, Some(a), None); Call(g, x, Some(a))),
         (a, b) => (var x :- Call(f, Some(a), Some(b)); Call(g, x, Some(b))))
  }

  /** Unary `]` (oper_right_unary_fork): [a, f(a)] and [a, f(a, b)]. */
  function RightUnaryFork(f: Operand): (r: Fn)
    ensures forall a :: r(Some(a), None) == (var x :- Call(f, Some(a), None); Pair(Some(a), x))
    ensures forall a, b :: r(Some(a), Some(b)) == (var x :- Call(f, Some(a), Some(b)); Pair(Some(a), x))
  {
    Make(a => (var x :- Call(f, Some(a), None); Pair(Some(a), x)),
         (a, b) => (var x :- Call(f, Some(a), Some(b)); Pair(Some(a), x)))
  }

  /** Binary `]` (oper_right_fork): f(a, g(a)) and f(a, g(a, b)). */
  function RightFork(f: Operand, g: Operand): (r: Fn)
    ensures forall a :: r(Some(a), None) == (var x :- Call(g, Some(a), None); Call(f, Some(a), x))
    ensures forall a, b :: r(Some(a), Some(b)) == (var x :- Call(g, Some(a), Some(b)); Call(f, Some(a), x))
  {
    Make(a => (var x :- Call(g, Some(a), None); Call(f, Some(a), x)),
         (a, b) => (var x :- Call(g, Some(a), Some(b)); Call(f, Some(a), x)))
  }

  /** The callable that hands f only its first argument. */
  function FirstOnly(f: Operand): (r: Fn)
    ensures forall a :: r(Some(a), None) == Call(f, Some(a), None)
    ensures forall a, b :: r(Some(a), Some(b)) == Call(f, Some(a), None)
  {
    Make(a => Call(f, Some(a), None), (a, b) => Call(f, Some(a), None))
  }

  /** The callable that hands f only its last argument. */
  function LastOnly(f: Operand): (r: Fn)
    ensures forall a :: r(Some(a), None) == Call(f, Some(a), None)
    ensures forall a, b :: r(Some(a), Some(b)) == Call(f, Some(b), None)
  {
    Make(a => Call(f, Some(a), None), (a, b) => Call(f, Some(b), None))
  }

  /** A hook is the fork of the same side whose inner callable sees only one
      of the two arguments: the first on the left, the last on the right. */
  lemma LeftHookIsFork(f: Operand, g: Operand, a: Value, b: Value)
    ensures LeftHook(f, g)(Some(a), None) == LeftFork(Fun(FirstOnly(f)), g)(Some(a), None)
    ensures LeftHook(f, g)(Some(a), Some(b)) == LeftFork(Fun(FirstOnly(f)), g)(Some(a), Some(b))
  {
  }

  lemma RightHookIsFork(f: Operand, g: Operand, a: Value, b: Value)
    ensures RightHook(f, g)(Some(a), None) == RightFork(f, Fun(LastOnly(g)))(Some(a), None)
    ensures RightHook(f, g)(Some(a), Some(b)) == RightFork(f, Fun(LastOnly(g)))(Some(a), Some(b))
  {
  }

  lemma LeftUnaryHookIsFork(f: Operand, a: Value, b: Value)
    ensures LeftUnaryHook(f)(Some(a), None) == LeftUnaryFork(Fun(FirstOnly(f)))(Some(a), None)
    ensures LeftUnaryHook(f)(Some(a), Some(b)) == LeftUnaryFork(Fun(FirstOnly(f)))(Some(a), Some(b))
  {
  }

  lemma RightUnaryHookIsFork(f: Operand, a: Value, b: Value)
    ensures RightUnaryHook(f)(Some(a), None) == RightUnaryFork(Fun(LastOnly(f)))(Some(a), None)
    ensures RightUnaryHook(f)(Some(a), Some(b)) == RightUnaryFork(Fun(LastOnly(f)))(Some(a), Some(b))
  {
  }

  // ---------------------------------------------------------------------
  // Fold

  /** f folded from the left over ys, starting at x. */
  function FoldLeft(f: Fn, x: Option<Value>, ys: seq<Value>): Res<Option<Value>>
    decreases |ys|
  {
    if ys == [] then Ok(x)
    else
      var x' :- f(x, Some(ys[0]));
      FoldLeft(f, x', ys[1..])
  }

  /** Folding over two lists one after the other is folding over the second
      from where the first ended. */
  lemma {:induction false} FoldLeftAppend(f: Fn, x: Option<Value>, ys: seq<Value>, zs: seq<Value>)
    ensures FoldLeft(f, x, ys + zs) == (var m :- FoldLeft(f, x, ys); FoldLeft(f, m, zs))
    decreases |ys|
  {
    if ys != [] {
      assert (ys + zs)[1..] == ys[1..] + zs;
      var r := f(x, Some(ys[0]));
      if r.Ok? {
        FoldLeftAppend(f, r.val, ys[1..], zs);
      }
    } else {
      assert ys + zs == zs;
    }
  }

  /** What the one-argument fold gives: an atom as it is, 0 for an empty
      list, otherwise f folded over the rest from the first item. */
  function FoldedSpec(f: Fn, a: Value): Res<Option<Value>> {
    match a
    case Atom(_, _) => Ok(Some(a))
    case List(xs) => if xs == [] then Ok(Some(NumAtom(0))) else FoldLeft(f, Some(xs[0]), xs[1..])
  }

  /** What the two-argument fold gives: f(a, b) for an atom b, otherwise f
      folded over b from a. */
  function FoldedInitSpec(f: Fn, a: Value, b: Value): Res<Option<Value>> {
    match b
    case Atom(_, _) => f(Some(a), Some(b))
    case List(ys) => FoldLeft(f, Some(a), ys)
  }

  /** The loop of folded over the items of a. */
  method Folded(f: Fn, a: Value) returns (r: Res<Option<Value>>)
    ensures r == FoldedSpec(f, a)
  {
    if a.Atom? {
      return Ok(Some(a));
    }
    if a.items == [] {
      return Ok(Some(NumAtom(0)));
    }
    var x := Some(a.items[0]);
    var i := 1;
    while i < |a.items|
      invariant 1 <= i <= |a.items|
      invariant FoldLeft(f, x, a.items[i..]) == FoldLeft(f, Some(a.items[0]), a.items[1..])
    {
      assert a.items[i..][1..] == a.items[i + 1..];
      x :- f(x, Some(a.items[i]));
      i := i + 1;
    }
    r := Ok(x);
  }

  /** The loop of folded_init over the items of b, starting at a. */
  method FoldedInit(f: Fn, a: Value, b: Value) returns (r: Res<Option<Value>>)
    ensures r == FoldedInitSpec(f, a, b)
  {
    if b.Atom? {
      return f(Some(a), Some(b));
    }
    var x := Some(a);
    var i := 0;
    while i < |b.items|
      invariant 0 <= i <= |b.items|
      invariant FoldLeft(f, x, b.items[i..]) == FoldLeft(f, Some(a), b.items)
    {
      assert b.items[i..][1..] == b.items[i + 1..];
      x :- f(x, Some(b.items[i]));
      i := i + 1;
    }
    r := Ok(x);
  }

  /** Folding a list from a start value is folding the list with the start
      value put in front. */
  lemma FoldedInitIsFolded(f: Fn, a: Value, ys: seq<Value>)
    ensures FoldedInitSpec(f, a, List(ys)) == FoldedSpec(f, List([a] + ys))
  {
    assert ([a] + ys)[1..] == ys;
  }

  /** Unary `/` (oper_join_or_fold): a callable is folded; the value form
      joins with the value library's helpers, which lie outside the model. */
  function JoinOrFold(f: Operand): (r: Fn)
    ensures f.Fun? ==> forall a :: r(Some(a), None) == FoldedSpec(f.f, a)
    ensures f.Fun? ==> forall a, b :: r(Some(a), Some(b)) == FoldedInitSpec(f.f, a, b)
  {
    match f
    case Val(_) => Make(a => Fail(OutsideModel("join_times")), (a, b) => Fail(OutsideModel("join_times")))
    case Fun(g) => Make(a => FoldedSpec(g, a), (a, b) => FoldedInitSpec(g, a, b))
  }

  // ---------------------------------------------------------------------
  // `Z`: index-directed modification

  /** A call's result used as a value; Python's `None` there lies outside
      the model. */
  function Present(r: Option<Value>): Res<Value> {
    if r.Some? then Ok(r.value) else Fail(OutsideModel("None as a value"))
  }

  /** The index paths and the new items modify_indices(ind, mod, a) works
      with: the paths are what ind gives for a (threaded at rank -2), the new
      items what mod gives for the items of a at those paths (func_index
      threaded at ranks -2 and -1). */
  function ModifyArgs(env: Env, ind: UnaryFn, mod: UnaryFn, a: Value): (r: Res<(Value, Value)>)
    ensures ind(a).Fail? ==> r.Fail?
    ensures r.Ok? ==> ind(a).Ok? && ind(a).val.Some?
  {
    var raw :- ind(a);
    var rawV :- Present(raw);
    var idx :- env.threadUnary(x => Ok(Some(x)), -2)(rawV);
    var indices :- Present(idx);
    var sel :- env.threadBinary((i, b) => (var v :- Index(i, b); Ok(Some(v))), -2, -1)(indices, a);
    var selV :- Present(sel);
    var items :- mod(selV);
    var newItems :- Present(items);
    Ok((indices, newItems))
  }

  /** modify_indices(ind, mod, a): a copy of a with each derived path
      overwritten by its new item; a list keeps its length. */
  function ModifyWith(env: Env, ind: UnaryFn, mod: UnaryFn, a: Value): (r: Res<Option<Value>>)
    ensures var m := ModifyArgs(env, ind, mod, a);
      r.Ok? <==> m.Ok? && ModifyIndices(a, m.val.0, m.val.1).Ok?
    ensures var m := ModifyArgs(env, ind, mod, a);
      r.Ok? ==> r.val == Some(ModifyIndices(a, m.val.0, m.val.1).val)
    ensures a.List? && r.Ok? ==> r.val.Some? && r.val.value.List? && |r.val.value.items| == |a.items|
  {
    var (indices, newItems) :- ModifyArgs(env, ind, mod, a);
    var r :- ModifyIndices(a, indices, newItems);
    Ok(Some(r))
  }

  /** An operand as a callable: a value becomes its constant callable. */
  function AsFn(f: Operand): (r: Fn)
    ensures f.Fun? ==> r == f.f
    ensures f.Val? ==> forall a, b :: r(Some(a), b) == Ok(Some(f.v))
  {
    if f.Val? then ConstOrFlip(f) else f.f
  }

  /** Binary `Z` (oper_modify_indices): a value operand first becomes a
      constant callable; then one argument a is modified by f's paths and
      g's items, and with two arguments both callables get a first. */
  function OperModifyIndices(env: Env, f: Operand, g: Operand): (r: Fn)
    ensures forall a :: (r(Some(a), None) ==
      ModifyWith(env, x => AsFn(f)(Some(x), None), x => AsFn(g)(Some(x), None), a))
    ensures forall a, b :: (r(Some(a), Some(b)) ==
      ModifyWith(env, x => AsFn(f)(Some(a), Some(x)), x => AsFn(g)(Some(a), Some(x)), b))
  {
    Make(a => ModifyWith(env, x => AsFn(f)(Some(x), None), x => AsFn(g)(Some(x), None), a),
         (a, b) => ModifyWith(env, x => AsFn(f)(Some(a), Some(x)), x => AsFn(g)(Some(a), Some(x)), b))
  }

  /** Unary `Z` (oper_unary_Z) is not implemented. */
  function OperUnaryZ(f: Operand): (r: Res<Option<Fn>>)
    ensures r.Fail?
  {
    Fail(NotImplemented("Unary 'Z'"))
  }
}

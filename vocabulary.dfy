/** The vocabulary as the interpreter receives it: every function and
    operator glyph, defined one arity at a time in the order of the value
    library's definitions, then made variadic. Built-ins that the library
    wraps with rank threading are wrapped by the threading helpers of an
    Env; built-ins outside this model fail with OutsideModel when called, so
    that every glyph is still a function or operator glyph to the
    tokenizer. */
module Vocabulary {
  import opened Values
  import opened Grid
  import opened Registry
  import opened Arith
  import opened Lists
  import opened Indexing
  import opened Combinators

  type FnDef = (char, Impl<Value, Value>)
  type OpDef = (char, Impl<Operand, Fn>)

  function Lift(r: Res<Value>): Res<Option<Value>> {
    var v :- r;
    Ok(Some(v))
  }

  function Outside(what: string): Res<Option<Value>> {
    Fail(OutsideModel(what))
  }

  /** Both arities of a function glyph whose built-ins lie outside the model. */
  function OutsideBoth(c: char, what: string): seq<FnDef> {
    [(c, Unary(_ => Outside(what))), (c, Binary((_, _) => Outside(what)))]
  }

  /** k and K raise a NameError for their two-argument form. */
  const UndefinedError := Raised("name 'Error' is not defined")

  /** func_base, threaded at ranks 1 and 0. */
  function ThreadedBase(env: Env): BinaryFn {
    env.threadBinary((a, b) => BaseOf(a, b), 1, 0)
  }

  /** func_antibase, threaded at ranks 1 and 1. */
  function ThreadedAntibase(env: Env): BinaryFn {
    env.threadBinary((a, b) => AntibaseOf(a, b), 1, 1)
  }

  /** func_factorize on one atom: int() of it, factorised. */
  function FactorizeOf(a: Value): (r: Res<Option<Value>>)
    ensures a.Atom? ==> r == Ok(Some(List(NumAtoms(Factorize(a.n)))))
    ensures a.List? ==> r.Fail?
  {
    var n :- ToInt(a);
    Ok(Some(List(NumAtoms(Factorize(n)))))
  }

  /** The function definitions, glyph by glyph and arity by arity, in the
      library's order. charFirst is the order of atom tags in comparisons. */
  function FunctionDefs(env: Env, charFirst: bool): seq<FnDef> {
    [('{', Unary(a => Ok(Some(a)))), ('{', Binary((a, b) => Ok(Some(a)))),
     ('}', Unary(a => Ok(Some(a)))), ('}', Binary((a, b) => Ok(Some(b))))]
    + OutsideBoth('j', "input") + OutsideBoth('J', "input")
    + [('p', Unary(_ => Outside("output"))), ('p', Binary((_, _) => Fail(Raised("Binary 'p' not implemented.")))),
       ('P', Unary(_ => Outside("output"))), ('P', Binary((_, _) => Fail(Raised("Binary 'P' not implemented.")))),
       ('+', Unary(env.threadUnary(a => MathyUnary(AbsOf, a), 0))),
       ('+', Binary(env.threadBinary((a, b) => MathyBinary(Add, a, b), 0, 0))),
       ('-', Unary(env.threadUnary(a => MathyUnary(Negate, a), 0))),
       ('-', Binary(env.threadBinary((a, b) => MathyBinary(Subtract, a, b), 0, 0))),
       ('*', Unary(env.threadUnary(a => MathyUnary(Signum, a), 0))),
       ('*', Binary(env.threadBinary((a, b) => MathyBinary(Multiply, a, b), 0, 0))),
       ('%', Unary(env.threadUnary(a => MathyUnary(Reciprocal, a), 0))),
       ('%', Binary(env.threadBinary((a, b) => MathyBinary(Divide, a, b), 0, 0))),
       ('|', Unary(env.threadUnary(a => MathyUnary(n => Ok(n), a), 0))),
       ('|', Binary(env.threadBinary((a, b) => MathyBinary(Modulus, a, b), 0, 0))),
       ('m', Unary(env.threadUnary(a => MathyUnary(n => Ok(n), a), 0))),
       ('m', Binary((a, b) => Lift(Min(a, b, charFirst)))),
       ('M', Unary(env.threadUnary(a => MathyUnary(n => Ok(n), a), 0))),
       ('M', Binary((a, b) => Lift(Max(a, b, charFirst)))),
       ('x', Unary(env.threadUnary(FactorizeOf, 0))),
       ('x', Binary(env.threadBinary((a, b) => MathyBinary(BitXor, a, b), 0, 0))),
       ('b', Unary(a => ThreadedBase(env)(NumAtom(2), a))),
       ('b', Binary(ThreadedBase(env))),
       ('d', Unary(a => ThreadedAntibase(env)(NumAtom(2), a))),
       ('d', Binary(ThreadedAntibase(env))),
       ('=', Unary(_ => Fail(Raised("Unary '=' not implemented.")))),
       ('=', Binary((a, b) => Ok(Some(Equals(a, b))))),
       ('<', Unary(a => Lift(HeadDec(a)))),
       ('<', Binary((a, b) => Lift(LessThan(a, b, charFirst)))),
       ('>', Unary(a => Ok(Some(TailInc(a))))),
       ('>', Binary((a, b) => Lift(GreaterThan(a, b, charFirst))))]
    + OutsideBoth('^', "powers") + OutsideBoth('v', "roots") + OutsideBoth('!', "permutations")
    + OutsideBoth('c', "characters and membership") + OutsideBoth('C', "combinations")
    + [('n', Unary(env.threadUnary(a => (var n :- ToInt(a); Ok(Some(NumAtom(n)))), 0))),
       ('n', Binary((a, b) => Ok(Some(Intersection(a, b)))))]
    + OutsideBoth('u', "uniques")
    + [('N', Unary(_ => Outside("is_truthy"))),
       ('N', Binary((a, b) => Ok(Some(Without(a, b)))))]
    + OutsideBoth('#', "lengths and repetition")
    + [('R', Unary(a => Ok(Some(Reverse(a))))),
       ('R', Binary(env.threadBinary((a, b) => Lift(Rotate(a, b)), 0, -1))),
       ('k', Unary(env.threadUnary(a => Lift(MaskToIndices(a)), 1))),
       ('k', Binary((_, _) => Fail(UndefinedError))),
       ('K', Unary(env.threadUnary(a => Lift(IndicesToMask(a)), 1))),
       ('K', Binary((_, _) => Fail(UndefinedError)))]
    + OutsideBoth('o', "sorting") + OutsideBoth('r', "ranges")
    + [(',', Unary(_ => Outside("flatten"))),
       (',', Binary((a, b) => Ok(Some(Append(a, b))))),
       (';', Unary(a => Ok(Some(List([a]))))),
       (';', Binary((a, b) => Ok(Some(List([a, b])))))]
    + OutsideBoth('$', "shapes")
    + [('@', Unary(a => Ok(Some(Indices(a))))),
       ('@', Binary(env.threadBinary((a, b) => Lift(Index(a, b)), -2, -1)))]
    + OutsideBoth('?', "randomness")
  }

  /** Both arities of an operator glyph whose operators lie outside the model. */
  function OutsideOper(c: char, what: string): seq<OpDef> {
    [(c, Unary(_ => Fail(OutsideModel(what)))), (c, Binary((_, _) => Fail(OutsideModel(what))))]
  }

  /** The operator definitions in the library's order. */
  function OperatorDefs(env: Env): seq<OpDef> {
    [('_', Unary(OperId)),
     ('_', Binary((f, g) => OperLeft(f, g))),
     ('~', Unary(f => Ok(Some(ConstOrFlip(f))))),
     ('~', Binary((f, g) => Ok(Some(CurryOrPrecompose(f, g))))),
     ('&', Unary(f => Ok(Some(SwapArity(f))))),
     ('&', Binary((f, g) => TwoSidedOrPostcompose(f, g))),
     ('(', Unary(f => Ok(Some(LeftUnaryHook(f))))),
     ('(', Binary((f, g) => Ok(Some(LeftHook(f, g))))),
     (')', Unary(f => Ok(Some(RightUnaryHook(f))))),
     (')', Binary((f, g) => Ok(Some(RightHook(f, g))))),
     ('[', Unary(f => Ok(Some(LeftUnaryFork(f))))),
     ('[', Binary((f, g) => Ok(Some(LeftFork(f, g))))),
     (']', Unary(f => Ok(Some(RightUnaryFork(f))))),
     (']', Binary((f, g) => Ok(Some(RightFork(f, g)))))]
    + OutsideOper('`', "rank threading") + OutsideOper('L', "levels")
    + [('/', Unary(f => Ok(Some(JoinOrFold(f))))),
       ('/', Binary((_, _) => Fail(OutsideModel("is_truthy"))))]
    + OutsideOper('\\', "substrings and iteration")
    + [('O', Unary(_ => Fail(OutsideModel("product tables")))),
       ('O', Binary((_, _) => Fail(Raised("Binary 'O' not implemented.")))),
       ('Z', Unary(OperUnaryZ)),
       ('Z', Binary((f, g) => Ok(Some(OperModifyIndices(env, f, g)))))]
  }

  /** The vocabulary once the library has loaded. */
  function Library(env: Env, charFirst: bool): Vocab {
    Vocab(Finished(RegisterAll(map[], FunctionDefs(env, charFirst))), Finished(RegisterAll(map[], OperatorDefs(env))))
  }

  /** Loading the library: its definitions run in order. */
  method LoadLibrary(env: Env, charFirst: bool) returns (v: Vocab)
    ensures v == Library(env, charFirst)
  {
    v := Load(FunctionDefs(env, charFirst), OperatorDefs(env));
  }

  /** A function glyph of the loaded vocabulary is the variadic callable of
      the pair its own definitions filled, and a glyph is there exactly when
      the library defines it. */
  lemma LoadedFunction(env: Env, charFirst: bool, c: char)
    ensures var fs := FunctionDefs(env, charFirst);
      var t := Finished(RegisterAll(map[], fs));
      (c in t <==> exists i :: 0 <= i < |fs| && fs[i].0 == c) &&
      (c in t ==> t[c] == Variadic(SlotsAfter(Slots(None, None), fs, c)))
  {
    RegisterAllAt(map[], FunctionDefs(env, charFirst), c);
  }

  /** The same for an operator glyph. */
  lemma LoadedOperator(env: Env, charFirst: bool, c: char)
    ensures var os := OperatorDefs(env);
      var t := Finished(RegisterAll(map[], os));
      (c in t <==> exists i :: 0 <= i < |os| && os[i].0 == c) &&
      (c in t ==> t[c] == Variadic(SlotsAfter(Slots(None, None), os, c)))
  {
    RegisterAllAt(map[], OperatorDefs(env), c);
  }
}

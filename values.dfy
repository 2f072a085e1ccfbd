/** The value model the interpreter and the vocabulary share: tagged integer
    atoms, nested lists, the callables that functions and operators produce,
    and the outcome of a call (a result, or the reason the run stops). */
module Values {

  datatype Option<+T> = None | Some(value: T)

  /** Why a call produced no value: the source raises, the source loops
      forever, or the behaviour lies outside this model (real numbers,
      helpers of the value library that are not modelled). */
  datatype Failure = Raised(msg: string) | Diverges | OutsideModel(what: string)

  datatype Res<+T> = Ok(val: T) | Fail(why: Failure) {
    predicate IsFailure() { Fail? }
    function PropagateFailure<U>(): Res<U>
      requires Fail?
    {
      Fail(why)
    }
    function Extract(): T
      requires Ok?
    {
      val
    }
  }

  datatype Tag = Num | Char

  /** An atom carries its tag and an integer (a character atom carries its
      code point); a list is an arbitrarily nested sequence. */
  datatype Value = Atom(tag: Tag, n: int) | List(items: seq<Value>)

  function NumAtom(n: int): Value { Atom(Num, n) }

  function CharAtom(c: char): Value { Atom(Char, c as int) }

  function CharList(s: string): (r: Value)
    ensures r.List? && |r.items| == |s|
    ensures forall i :: 0 <= i < |s| ==> r.items[i] == CharAtom(s[i])
  {
    List(seq(|s|, i requires 0 <= i < |s| => CharAtom(s[i])))
  }

  /** The `if is_atom(a): a = [a]` idiom: an atom stands for the one-element list. */
  function Elements(v: Value): (r: seq<Value>)
    ensures v.Atom? ==> r == [v]
    ensures v.List? ==> r == v.items
  {
    match v
    case Atom(_, _) => [v]
    case List(xs) => xs
  }

  /** Python's `int(x)` or `x.value` on a value: the atom's number; a list
      has none, and the two raise alike up to their message. */
  function ToInt(v: Value): (r: Res<int>)
    ensures v.Atom? <==> r.Ok?
    ensures r.Ok? ==> r.val == v.n
  {
    match v
    case Atom(_, n) => Ok(n)
    case List(_) => Fail(Raised("int() argument must be a number, not 'list'"))
  }

  /** A variadic callable: an absent argument is Python's `None`. */
  type Fn = (Option<Value>, Option<Value>) -> Res<Option<Value>>

  /** What an operator consumes: a value or a callable (`is_value` tells them apart). */
  datatype Operand = Val(v: Value) | Fun(f: Fn)

  /** A variadic operator: its operands, either of which may be absent, give a
      callable, or nothing when both are absent. */
  type Oper = (Option<Operand>, Option<Operand>) -> Res<Option<Fn>>

  /** Calling an operand: a value is not callable. */
  function Call(o: Operand, a: Option<Value>, b: Option<Value>): (r: Res<Option<Value>>)
    ensures o.Fun? ==> r == o.f(a, b)
    ensures o.Val? ==> r.Fail? && r.why.Raised?
  {
    match o
    case Fun(f) => f(a, b)
    case Val(_) => Fail(Raised("value is not callable"))
  }

  /** Python's `[x, y]` when x or y is the result of a call: a `None` inside a
      list is not a value of this model. */
  function Pair(x: Option<Value>, y: Option<Value>): (r: Res<Option<Value>>)
    ensures x.Some? && y.Some? <==> r.Ok?
    ensures r.Ok? ==> r.val == Some(List([x.value, y.value]))
  {
    if x.Some? && y.Some? then Ok(Some(List([x.value, y.value])))
    else Fail(OutsideModel("None inside a list"))
  }


  /** Flattening to atoms, in order (the value library's `flatten` at depth 0). */
  function Flatten(v: Value): (r: seq<Value>)
    ensures forall i :: 0 <= i < |r| ==> r[i].Atom?
    ensures v.Atom? ==> r == [v]
  {
    match v
    case Atom(_, _) => [v]
    case List(xs) => FlattenSeq(xs)
  }

  function FlattenSeq(xs: seq<Value>): (r: seq<Value>)
    ensures forall i :: 0 <= i < |r| ==> r[i].Atom?
  {
    if xs == [] then [] else Flatten(xs[0]) + FlattenSeq(xs[1..])
  }
}

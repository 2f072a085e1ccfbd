/** The glyph tables of the vocabulary. Every glyph of a role (function or
    operator) owns a pair of slots, one per arity; each definition fills one
    slot of one glyph and keeps the other. Once every definition has run, each
    pair becomes one variadic callable that dispatches on which arguments are
    present. */
module Registry {
  import opened Values
  import opened Grid

  /** A definition for one arity: the one-argument or the two-argument form. */
  datatype Impl<!A, R> =
    | Unary(u: A -> Res<Option<R>>)
    | Binary(b: (A, A) -> Res<Option<R>>)

  /** The pair a glyph maps to; an arity with no definition is empty. */
  datatype Slots<!A, R> = Slots(unary: Option<A -> Res<Option<R>>>, binary: Option<(A, A) -> Res<Option<R>>>)

  /** Registering a definition: the glyph's slot for that arity holds it, its
      other slot keeps what it held (nothing for a new glyph), and every other
      glyph keeps its pair. */
  function Register<A, R>(defs: map<char, Slots<A, R>>, c: char, impl: Impl<A, R>): (r: map<char, Slots<A, R>>)
    ensures r.Keys == defs.Keys + {c}
    ensures impl.Unary? ==>
      r[c].unary == Some(impl.u) && r[c].binary == (if c in defs then defs[c].binary else None)
    ensures impl.Binary? ==>
      r[c].binary == Some(impl.b) && r[c].unary == (if c in defs then defs[c].unary else None)
    ensures forall d :: d in defs && d != c ==> r[d] == defs[d]
  {
    defs[c := Filled(if c in defs then defs[c] else Slots(None, None), impl)]
  }

  /** A pair with the slot of one definition filled. */
  function Filled<A, R>(s: Slots<A, R>, impl: Impl<A, R>): Slots<A, R> {
    match impl
    case Unary(u) => s.(unary := Some(u))
    case Binary(b) => s.(binary := Some(b))
  }

  /** Definitions of the two arities of one glyph commute. */
  lemma RegisterCommutes<A, R>(defs: map<char, Slots<A, R>>, c: char,
                               u: A -> Res<Option<R>>, b: (A, A) -> Res<Option<R>>)
    ensures Register(Register(defs, c, Unary(u)), c, Binary(b)) == Register(Register(defs, c, Binary(b)), c, Unary(u))
  {
    var x := Register(Register(defs, c, Unary(u)), c, Binary(b));
    var y := Register(Register(defs, c, Binary(b)), c, Unary(u));
    assert x[c] == y[c];
    assert forall d :: d in x ==> x[d] == y[d];
  }

  /** A later definition of the same arity replaces an earlier one. */
  lemma RegisterReplaces<A, R>(defs: map<char, Slots<A, R>>, c: char, u: A -> Res<Option<R>>, u': A -> Res<Option<R>>)
    ensures Register(Register(defs, c, Unary(u)), c, Unary(u')) == Register(defs, c, Unary(u'))
  {
    var z := Register(Register(defs, c, Unary(u)), c, Unary(u'));
    var w := Register(defs, c, Unary(u'));
    assert z[c] == w[c];
    assert forall d :: d in z ==> z[d] == w[d];
  }

  /** Every definition of a list registered in order. */
  function RegisterAll<A, R>(defs: map<char, Slots<A, R>>, list: seq<(char, Impl<A, R>)>): map<char, Slots<A, R>>
    decreases |list|
  {
    if list == [] then defs else RegisterAll(Register(defs, list[0].0, list[0].1), list[1..])
  }

  /** The pair s once the definitions of glyph c in list have filled it in
      order. */
  function SlotsAfter<A, R>(s: Slots<A, R>, list: seq<(char, Impl<A, R>)>, c: char): Slots<A, R>
    decreases |list|
  {
    if list == [] then s
    else SlotsAfter(if list[0].0 == c then Filled(s, list[0].1) else s, list[1..], c)
  }

  /** After a list of definitions, a glyph has a pair exactly when it had
      one or the list defines it, and its pair is what its own definitions
      made of its old pair: definitions of other glyphs leave it alone. */
  lemma {:induction false} RegisterAllAt<A, R>(defs: map<char, Slots<A, R>>, list: seq<(char, Impl<A, R>)>, c: char)
    ensures c in RegisterAll(defs, list) <==> c in defs || exists i :: 0 <= i < |list| && list[i].0 == c
    ensures c in RegisterAll(defs, list) ==>
      RegisterAll(defs, list)[c] == SlotsAfter(if c in defs then defs[c] else Slots(None, None), list, c)
    decreases |list|
  {
    if list != [] {
      var d := Register(defs, list[0].0, list[0].1);
      RegisterAllAt(d, list[1..], c);
      if exists i :: 0 <= i < |list| && list[i].0 == c {
        var i :| 0 <= i < |list| && list[i].0 == c;
        if i > 0 {
          assert list[1..][i - 1].0 == c;
        }
      }
      if exists i :: 0 <= i < |list[1..]| && list[1..][i].0 == c {
        var i :| 0 <= i < |list[1..]| && list[1..][i].0 == c;
        assert list[i + 1].0 == c;
      }
    }
  }

  /** The callable variadize builds from a unary and a binary form: no
      argument gives nothing, a single argument (in either position) goes to
      the unary form, two arguments to the binary form. */
  function Variadize<A(!new), R>(unary: A -> Res<Option<R>>, binary: (A, A) -> Res<Option<R>>): (v: (Option<A>, Option<A>) -> Res<Option<R>>)
    ensures v(None, None) == Ok(None)
    ensures forall b :: v(None, Some(b)) == unary(b)
    ensures forall a :: v(Some(a), None) == unary(a)
    ensures forall a, b :: v(Some(a), Some(b)) == binary(a, b)
  {
    (a: Option<A>, b: Option<A>) =>
      if a.None? then
        if b.None? then Ok(None) else unary(b.value)
      else if b.None? then unary(a.value)
      else binary(a.value, b.value)
  }

  const NotCallable := Raised("'NoneType' object is not callable")

  /** The variadic callable of a glyph's pair; calling an arity the glyph
      never defined calls None. */
  function Variadic<A(!new), R>(s: Slots<A, R>): (v: (Option<A>, Option<A>) -> Res<Option<R>>)
    ensures v(None, None) == Ok(None)
    ensures forall a :: v(Some(a), None) == v(None, Some(a))
    ensures forall a :: v(Some(a), None) == if s.unary.Some? then s.unary.value(a) else Fail(NotCallable)
    ensures forall a, b :: v(Some(a), Some(b)) == if s.binary.Some? then s.binary.value(a, b) else Fail(NotCallable)
  {
    Variadize(if s.unary.Some? then s.unary.value else (_ => Fail(NotCallable)),
              if s.binary.Some? then s.binary.value else ((_, _) => Fail(NotCallable)))
  }

  /** Every pair of a table made variadic. */
  function Finished<A(!new), R>(defs: map<char, Slots<A, R>>): (t: map<char, (Option<A>, Option<A>) -> Res<Option<R>>>)
    ensures t.Keys == defs.Keys
    ensures forall c :: c in defs ==> t[c] == Variadic(defs[c])
  {
    map c | c in defs :: Variadic(defs[c])
  }

  /** The two tables the definitions fill in place: functions map values to
      values, operators map operands to callables. */
  class Registry {
    var funcDefs: map<char, Slots<Value, Value>>
    var operDefs: map<char, Slots<Operand, Fn>>

    constructor ()
      ensures funcDefs == map[] && operDefs == map[]
    {
      funcDefs, operDefs := map[], map[];
    }

    /** Defines one arity of a function glyph. */
    method DefineFunction(c: char, impl: Impl<Value, Value>)
      modifies this
      ensures funcDefs == Register(old(funcDefs), c, impl)
      ensures operDefs == old(operDefs)
    {
      var pair := if c in funcDefs then funcDefs[c] else Slots(None, None);
      match impl {
        case Unary(u) => pair := pair.(unary := Some(u));
        case Binary(b) => pair := pair.(binary := Some(b));
      }
      funcDefs := funcDefs[c := pair];
    }

    /** Defines one arity of an operator glyph. */
    method DefineOperator(c: char, impl: Impl<Operand, Fn>)
      modifies this
      ensures operDefs == Register(old(operDefs), c, impl)
      ensures funcDefs == old(funcDefs)
    {
      var pair := if c in operDefs then operDefs[c] else Slots(None, None);
      match impl {
        case Unary(u) => pair := pair.(unary := Some(u));
        case Binary(b) => pair := pair.(binary := Some(b));
      }
      operDefs := operDefs[c := pair];
    }

    /** Runs a list of function definitions in order. */
    method DefineFunctions(list: seq<(char, Impl<Value, Value>)>)
      modifies this
      ensures funcDefs == RegisterAll(old(funcDefs), list)
      ensures operDefs == old(operDefs)
    {
      for i := 0 to |list|
        invariant RegisterAll(funcDefs, list[i..]) == RegisterAll(old(funcDefs), list)
        invariant operDefs == old(operDefs)
      {
        assert list[i..][1..] == list[i + 1..];
        DefineFunction(list[i].0, list[i].1);
      }
    }

    /** Runs a list of operator definitions in order. */
    method DefineOperators(list: seq<(char, Impl<Operand, Fn>)>)
      modifies this
      ensures operDefs == RegisterAll(old(operDefs), list)
      ensures funcDefs == old(funcDefs)
    {
      for i := 0 to |list|
        invariant RegisterAll(operDefs, list[i..]) == RegisterAll(old(operDefs), list)
        invariant funcDefs == old(funcDefs)
      {
        assert list[i..][1..] == list[i + 1..];
        DefineOperator(list[i].0, list[i].1);
      }
    }

    /** The vocabulary the interpreter reads once all definitions have run:
        each glyph's pair made variadic. */
    method Finish() returns (v: Vocab)
      ensures v == Vocab(Finished(funcDefs), Finished(operDefs))
      ensures v.funcs.Keys == funcDefs.Keys && v.opers.Keys == operDefs.Keys
      ensures forall c :: c in funcDefs ==> v.funcs[c] == Variadic(funcDefs[c])
      ensures forall c :: c in operDefs ==> v.opers[c] == Variadic(operDefs[c])
    {
      v := Vocab(Finished(funcDefs), Finished(operDefs));
    }
  }

  /** Loading a library: its function and operator definitions run in
      order on fresh tables, then each glyph's pair made variadic. */
  method Load(funcs: seq<(char, Impl<Value, Value>)>, opers: seq<(char, Impl<Operand, Fn>)>) returns (v: Vocab)
    ensures v == Vocab(Finished(RegisterAll(map[], funcs)), Finished(RegisterAll(map[], opers)))
  {
    var reg := new Registry();
    reg.DefineFunctions(funcs);
    reg.DefineOperators(opers);
    v := reg.Finish();
  }
}

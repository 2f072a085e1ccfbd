/** The integer built-ins of the vocabulary: sign and arithmetic on atoms,
    division and modulus with their zero cases, trial-division
    factorisation, and conversion to and from a base. Python's floor
    division and modulus are written out here; Dafny's own are Euclidean.
    A result Python would give as a float lies outside the model. */
module Arith {
  import opened Values

  function Abs(n: int): nat {
    if n < 0 then -n else n
  }

  /** Python's `b // a`: the quotient rounded down. */
  function FloorDiv(b: int, a: int): int
    requires a != 0
  {
    if a > 0 then b / a else (-b) / (-a)
  }

  /** Python's `b % a`: what is left of b above a multiple of a, with the
      sign of a. */
  function FloorMod(b: int, a: int): (r: int)
    requires a != 0
    ensures a > 0 ==> 0 <= r < a
    ensures a < 0 ==> a < r <= 0
  {
    if a > 0 then
      assert b == a * (b / a) + b % a;
      b % a
    else
      assert -b == (-a) * ((-b) / (-a)) + (-b) % (-a);
      assert a * ((-b) / (-a)) == -((-a) * ((-b) / (-a)));
      -((-b) % (-a))
  }

  /** Quotient and remainder rebuild the number. */
  lemma FloorDivMod(b: int, a: int)
    requires a != 0
    ensures b == a * FloorDiv(b, a) + FloorMod(b, a)
  {
    if a > 0 {
      assert b == a * (b / a) + b % a;
    } else {
      assert -b == (-a) * ((-b) / (-a)) + (-b) % (-a);
      assert a * ((-b) / (-a)) == -((-a) * ((-b) / (-a)));
    }
  }

  /** A result that would be a Python float. */
  const FloatResult := OutsideModel("float result")

  const ZeroDivision := Raised("integer division or modulo by zero")

  /** `mathy_unary`: f applied to the atom's number, keeping its tag. */
  function MathyUnary(f: int -> Res<int>, x: Value): (r: Res<Option<Value>>)
    ensures x.List? ==> r.Fail?
    ensures x.Atom? && f(x.n).Ok? ==> r == Ok(Some(Atom(x.tag, f(x.n).val)))
  {
    var n :- ToInt(x);
    var m :- f(n);
    Ok(Some(Atom(x.tag, m)))
  }

  /** `mathy_binary`: f applied to the two numbers, keeping the first tag. */
  function MathyBinary(f: (int, int) -> Res<int>, x: Value, y: Value): (r: Res<Option<Value>>)
    ensures x.List? || y.List? ==> r.Fail?
    ensures x.Atom? && y.Atom? && f(x.n, y.n).Ok? ==> r == Ok(Some(Atom(x.tag, f(x.n, y.n).val)))
  {
    var n :- ToInt(x);
    var m :- ToInt(y);
    var k :- f(n, m);
    Ok(Some(Atom(x.tag, k)))
  }

  /** `|a|`, `-a`, the sign of a, `a + b`, `b - a` and `a * b`. */
  function AbsOf(a: int): Res<int> { Ok(Abs(a)) }
  function Negate(a: int): Res<int> { Ok(-a) }
  function Signum(a: int): (r: Res<int>)
    ensures r.Ok? && -1 <= r.val <= 1 && r.val * Abs(a) == a
  {
    Ok(if a > 0 then 1 else if a < 0 then -1 else 0)
  }
  function Add(a: int, b: int): Res<int> { Ok(a + b) }
  /** func_subtract takes its operands the other way round: the result is
      what must be added to the first operand to reach the second. */
  function Subtract(a: int, b: int): (r: Res<int>)
    ensures r.Ok? && Add(a, r.val) == Ok(b)
  {
    Ok(b - a)
  }
  function Multiply(a: int, b: int): Res<int> { Ok(a * b) }

  /** The reciprocal: 0 for 0; any other integer has a float reciprocal. */
  function Reciprocal(a: int): (r: Res<int>)
    ensures r.Ok? <==> a == 0
    ensures r.Ok? ==> r.val == 0
  {
    if a == 0 then Ok(0) else Fail(FloatResult)
  }

  /** `b` divided by `a`: 0 when either is 0; otherwise the exact quotient
      when a divides b, a float when it does not. */
  function Divide(a: int, b: int): (r: Res<int>)
    ensures a == 0 || b == 0 ==> r == Ok(0)
    ensures a != 0 && b != 0 ==> (r.Ok? <==> FloorMod(b, a) == 0)
    ensures a != 0 && b != 0 && r.Ok? ==> a * r.val == b
  {
    if a != 0 && b != 0 then
      FloorDivMod(b, a);
      if FloorMod(b, a) == 0 then Ok(FloorDiv(b, a)) else Fail(FloatResult)
    else Ok(0)
  }

  /** `b` modulo `a`: 0 when either is 0; otherwise Python's remainder,
      which lies between 0 and a and leaves a multiple of a. */
  function Modulus(a: int, b: int): (r: Res<int>)
    ensures r.Ok?
    ensures a == 0 || b == 0 ==> r.val == 0
    ensures a > 0 ==> 0 <= r.val < a
    ensures a < 0 ==> a < r.val <= 0
    ensures a != 0 && b != 0 ==> b == a * FloorDiv(b, a) + r.val
  {
    if a != 0 && b != 0 then
      FloorDivMod(b, a);
      Ok(FloorMod(b, a))
    else Ok(0)
  }

  // ---------------------------------------------------------------------
  // Bitwise exclusive or, on Python's unbounded two's-complement integers

  /** The exclusive or of two naturals, bit by bit from the lowest. */
  function XorNat(a: nat, b: nat): nat
    decreases a + b
  {
    if a == 0 then b
    else if b == 0 then a
    else 2 * XorNat(a / 2, b / 2) + (if a % 2 == b % 2 then 0 else 1)
  }

  /** `a ^ b`: a negative integer is the complement (-1 - x) of a natural,
      and complementing one operand complements the result. */
  function Xor(a: int, b: int): (r: int)
    ensures r < 0 <==> (a < 0) != (b < 0)
  {
    if a >= 0 && b >= 0 then XorNat(a, b)
    else if a < 0 && b < 0 then XorNat(-1 - a, -1 - b)
    else if a < 0 then -1 - XorNat(-1 - a, b)
    else -1 - XorNat(a, -1 - b)
  }

  function BitXor(a: int, b: int): Res<int> { Ok(Xor(a, b)) }

  /** The lowest bit of the exclusive or, and the rest, whichever operand is 0. */
  lemma XorNatStep(a: nat, b: nat)
    ensures XorNat(a, b) == 2 * XorNat(a / 2, b / 2) + (if a % 2 == b % 2 then 0 else 1)
  {
    if a == 0 {
      assert XorNat(a / 2, b / 2) == b / 2;
    } else if b == 0 {
      assert XorNat(a / 2, b / 2) == a / 2;
    }
  }

  lemma {:induction false} XorNatInvolution(a: nat, b: nat)
    ensures XorNat(XorNat(a, b), b) == a
    decreases a + b
  {
    if a + b > 0 {
      var x := XorNat(a, b);
      var h := XorNat(a / 2, b / 2);
      var bit := if a % 2 == b % 2 then 0 else 1;
      XorNatStep(a, b);
      DivModUnique(x, 2, h, bit);
      XorNatStep(x, b);
      XorNatInvolution(a / 2, b / 2);
    }
  }

  lemma {:induction false} XorNatCommutes(a: nat, b: nat)
    ensures XorNat(a, b) == XorNat(b, a)
    decreases a + b
  {
    if a != 0 && b != 0 {
      XorNatCommutes(a / 2, b / 2);
    }
  }

  lemma {:induction false} XorNatSelf(a: nat)
    ensures XorNat(a, a) == 0
  {
    if a != 0 {
      XorNatSelf(a / 2);
    }
  }

  /** Exclusive or with the same operand twice gives the first back. */
  lemma XorInvolution(a: int, b: int)
    ensures Xor(Xor(a, b), b) == a
  {
    if a >= 0 && b >= 0 {
      XorNatInvolution(a, b);
    } else if a < 0 && b < 0 {
      XorInvolutionBothNegative(-1 - a, -1 - b);
    } else if a < 0 {
      XorInvolutionFirstNegative(-1 - a, b);
    } else {
      XorInvolutionSecondNegative(a, -1 - b);
    }
  }

  /** The cases of XorInvolution with a negative operand, each written on
      the complements -1 - n of the negative ones. */
  lemma XorInvolutionBothNegative(p: nat, q: nat)
    ensures Xor(Xor(-1 - p, -1 - q), -1 - q) == -1 - p
  {
    var x := XorNat(p, q);
    assert Xor(-1 - p, -1 - q) == x;
    XorNatInvolution(p, q);
  }

  lemma XorInvolutionFirstNegative(p: nat, b: nat)
    ensures Xor(Xor(-1 - p, b), b) == -1 - p
  {
    var x: int := XorNat(p, b);
    assert Xor(-1 - p, b) == -1 - x;
    XorNatInvolution(p, b);
  }

  lemma XorInvolutionSecondNegative(a: nat, q: nat)
    ensures Xor(Xor(a, -1 - q), -1 - q) == a
  {
    var x: int := XorNat(a, q);
    assert Xor(a, -1 - q) == -1 - x;
    XorNatInvolution(a, q);
  }

  /** Exclusive or is commutative, has 0 as its identity and clears an
      operand against itself. */
  lemma XorLaws(a: int, b: int)
    ensures Xor(a, b) == Xor(b, a)
    ensures Xor(a, 0) == a && Xor(a, a) == 0
  {
    if a >= 0 && b >= 0 {
      XorNatCommutes(a, b);
    } else if a < 0 && b < 0 {
      XorNatCommutes(-1 - a, -1 - b);
    } else if a < 0 {
      XorNatCommutes(-1 - a, b);
    } else {
      XorNatCommutes(a, -1 - b);
    }
    if a >= 0 {
      XorNatSelf(a);
    } else {
      XorNatSelf(-1 - a);
    }
  }

  // ---------------------------------------------------------------------
  // Factorisation

  function Product(s: seq<int>): int {
    if s == [] then 1 else s[0] * Product(s[1..])
  }

  predicate Sorted(s: seq<int>) {
    forall i, j :: 0 <= i < j < |s| ==> s[i] <= s[j]
  }

  ghost predicate IsPrime(p: int) {
    p >= 2 && forall d :: 2 <= d < p ==> p % d != 0
  }

  /** No candidate below div divides n. */
  ghost predicate NoFactorBelow(n: nat, div: nat) {
    forall d :: 2 <= d < div ==> n % d != 0
  }

  /** A positive multiple of a number of size at least 2 is at least twice
      the multiplier. */
  lemma MulAtLeast(x: int, y: int)
    requires x >= 2 && y >= 0
    ensures x * y >= 2 * y
  {
    assert x * y == (x - 2) * y + 2 * y;
  }

  /** The only multiple of d strictly between -d and d is 0. */
  lemma MulZero(d: int, m: int)
    requires d > 0 && -d < d * m < d
    ensures m == 0
  {
  }

  /** A multiple of d leaves no remainder, and its quotient is the multiplier. */
  lemma DivUnique(x: int, d: int, k: int)
    requires d > 0 && x == d * k
    ensures x % d == 0 && x / d == k
  {
    var q, r := x / d, x % d;
    assert x == d * q + r;
    assert d * (k - q) == r;
    MulZero(d, k - q);
  }

  /** Quotient and remainder are the only pair that rebuilds x with the
      remainder in [0, d). */
  lemma DivModUnique(x: int, d: int, q: int, r: int)
    requires d > 0 && x == d * q + r && 0 <= r < d
    ensures x / d == q && x % d == r
  {
    var q', r' := x / d, x % d;
    assert x == d * q' + r';
    assert d * (q - q') == r' - r;
    MulZero(d, q - q');
  }

  /** A number in [0, n) is its own remainder. */
  lemma ModSmall(x: int, n: int)
    requires 0 <= x < n
    ensures FloorMod(x, n) == x
  {
    DivModUnique(x, n, 0, x);
  }

  /** A multiple of n leaves no remainder. */
  lemma ModMultiple(k: int, n: int)
    requires n > 0
    ensures FloorMod(k * n, n) == 0
  {
    DivModUnique(k * n, n, k, 0);
  }

  /** Taking the remainder first does not change the remainder of a sum. */
  lemma ModOfSum(x: int, y: int, n: int)
    requires n > 0
    ensures FloorMod(FloorMod(x, n) + y, n) == FloorMod(x + y, n)
  {
    var m := FloorMod(x, n);
    var q := FloorDiv(m + y, n);
    var r := FloorMod(m + y, n);
    FloorDivMod(x, n);
    FloorDivMod(m + y, n);
    assert x == n * FloorDiv(x, n) + m;
    assert x + y == n * (FloorDiv(x, n) + q) + r;
    DivModUnique(x + y, n, FloorDiv(x, n) + q, r);
  }

  /** A multiple of a multiple of d is a multiple of d. */
  lemma DividesTrans(n: int, m: int, c: int, d: int)
    requires d > 0 && n == m * c && m % d == 0
    ensures n % d == 0
  {
    var k := m / d;
    assert m == d * k;
    assert n == d * (k * c);
    DivUnique(n, d, k * c);
  }

  /** Past the candidates that do not divide n, the next candidate is at most n. */
  lemma CandidateBound(n: nat, div: nat)
    requires n >= 2 && NoFactorBelow(n, div)
    ensures div <= n
  {
    if div > n {
      ModSelf(n);
      assert false;
    }
  }

  lemma ModSelf(n: int)
    requires n > 0
    ensures n % n == 0
  {
    DivUnique(n, n, 1);
  }

  /** The factors the trial-division loop appends while n > 1, starting from
      candidate div: none below div, and their product is n
      (FactorsPrimeSorted adds that they are primes in nondecreasing order). */
  function Factors(n: nat, div: nat): (fs: seq<int>)
    requires 2 <= div && NoFactorBelow(n, div)
    ensures forall i :: 0 <= i < |fs| ==> div <= fs[i]
    ensures n >= 1 ==> Product(fs) == n
    decreases n, n - div
  {
    if n <= 1 then []
    else
      CandidateBound(n, div);
      if n % div == 0 then
        FactorStep(n, div);
        [div] + Factors(n / div, div)
      else
        Factors(n, div + 1)
  }

  /** Dividing out the smallest candidate: it is prime, and the quotient has
      no smaller factor either. */
  lemma FactorStep(n: nat, div: nat)
    requires 2 <= div <= n && n % div == 0 && NoFactorBelow(n, div)
    ensures IsPrime(div) && NoFactorBelow(n / div, div) && n / div < n
    ensures div * (n / div) == n
  {
    var q := n / div;
    assert n == div * q + n % div;
    MulAtLeast(div, q);
    forall d | 2 <= d < div
      ensures div % d != 0
    {
      if div % d == 0 {
        DividesTrans(n, div, q, d);
      }
    }
    forall d | 2 <= d < div
      ensures q % d != 0
    {
      if q % d == 0 {
        DividesTrans(n, q, div, d);
      }
    }
  }

  /** The factors are primes, in nondecreasing order. */
  lemma {:induction false} FactorsPrimeSorted(n: nat, div: nat)
    requires 2 <= div && NoFactorBelow(n, div)
    ensures forall i :: 0 <= i < |Factors(n, div)| ==> IsPrime(Factors(n, div)[i])
    ensures Sorted(Factors(n, div))
    decreases n, n - div
  {
    if n > 1 {
      CandidateBound(n, div);
      if n % div == 0 {
        FactorStep(n, div);
        FactorsPrimeSorted(n / div, div);
        var rest := Factors(n / div, div);
        assert Factors(n, div) == [div] + rest;
      } else {
        FactorsPrimeSorted(n, div + 1);
      }
    }
  }

  /** One pass of the trial-division loop: a candidate that divides n is
      the next factor, one that does not is skipped. */
  lemma FactorsStep(n: nat, div: nat)
    requires n > 1 && 2 <= div && NoFactorBelow(n, div)
    ensures n % div == 0 ==>
              1 <= n / div < n && NoFactorBelow(n / div, div) && Factors(n, div) == [div] + Factors(n / div, div)
    ensures n % div != 0 ==>
              div < n && NoFactorBelow(n, div + 1) && Factors(n, div) == Factors(n, div + 1)
  {
    CandidateBound(n, div);
    if n % div == 0 {
      FactorStep(n, div);
    } else {
      ModSelf(n);
    }
  }

  /** The factor list of func_factorize: [0] for 0, the prime factors of n
      for n > 0, and -1 followed by the prime factors of -n for n < 0; in
      every case the product is n. */
  function Factorize(n: int): (r: seq<int>)
    ensures Product(r) == n
    ensures n == 0 ==> r == [0]
    ensures n > 0 ==> Sorted(r) && forall i :: 0 <= i < |r| ==> IsPrime(r[i])
    ensures n < 0 ==> |r| >= 1 && r[0] == -1 && Sorted(r[1..]) && forall i :: 1 <= i < |r| ==> IsPrime(r[i])
  {
    if n == 0 then [0]
    else if n > 0 then
      FactorsPrimeSorted(n, 2);
      Factors(n, 2)
    else
      FactorsPrimeSorted(-n, 2);
      var fs := Factors(-n, 2);
      assert ([-1] + fs)[1..] == fs;
      [-1] + fs
  }

  function NumAtoms(s: seq<int>): (r: seq<Value>)
    ensures |r| == |s| && forall i :: 0 <= i < |s| ==> r[i] == NumAtom(s[i])
  {
    seq(|s|, i requires 0 <= i < |s| => NumAtom(s[i]))
  }

  lemma ProductAppend(s: seq<int>, x: int)
    ensures Product(s + [x]) == Product(s) * x
  {
    if s != [] {
      assert (s + [x])[1..] == s[1..] + [x];
      ProductAppend(s[1..], x);
    }
  }

  /** The trial-division loop of func_factorize: each candidate 2, 3, 4, ...
      divided out while it divides what is left, until that is 1. */
  method TrialDivision(n0: nat) returns (fact: seq<int>)
    requires n0 >= 1
    ensures fact == Factors(n0, 2)
  {
    var n: int, div: int := n0, 2;
    fact := [];
    while n > 1
      invariant n >= 1 && 2 <= div && NoFactorBelow(n, div)
      invariant fact + Factors(n, div) == Factors(n0, 2)
      decreases n, n - div
    {
      FactorsStep(n, div);
      if n % div == 0 {
        var q := n / div;
        assert fact + Factors(n, div) == (fact + [div]) + Factors(q, div);
        n := q;
        fact := fact + [div];
      } else {
        div := div + 1;
      }
    }
  }

  /** func_factorize's factor list: [0] for 0; otherwise -1 first for a
      negative number, then the trial divisions of its size. */
  method FactorList(n: int) returns (fact: seq<int>)
    ensures fact == Factorize(n)
  {
    if n == 0 {
      fact := [0];
    } else if n > 0 {
      fact := TrialDivision(n);
    } else {
      var rest := TrialDivision(-n);
      fact := [-1] + rest;
    }
  }

  /** func_factorize on a value: the factor list of the atom's number. */
  method FuncFactorize(a: Value) returns (r: Res<Option<Value>>)
    ensures a.List? ==> r.Fail?
    ensures a.Atom? ==> r == Ok(Some(List(NumAtoms(Factorize(a.n)))))
  {
    var n :- ToInt(a);
    var fact := FactorList(n);
    r := Ok(Some(List(NumAtoms(fact))));
  }

  // ---------------------------------------------------------------------
  // Bases

  /** A quotient by a base of size at least 2 is smaller than the number
      once the number is at least the base in size. */
  lemma QuotientShrinks(num: int, base: int)
    requires Abs(base) >= 2 && Abs(num) >= Abs(base)
    ensures Abs(FloorDiv(num, base)) < Abs(num)
  {
    var q := FloorDiv(num, base);
    var r := FloorMod(num, base);
    FloorDivMod(num, base);
    assert base * q == num - r;
    MulAbs(base, q);
    MulAtLeast(Abs(base), Abs(q));
  }

  lemma MulAbs(x: int, y: int)
    ensures Abs(x * y) == Abs(x) * Abs(y)
  {
    if x < 0 && y < 0 {
      assert x * y == (-x) * (-y);
    } else if x < 0 {
      assert x * y == -((-x) * y);
    } else if y < 0 {
      assert x * y == -(x * (-y));
    }
  }

  /** The digits func_base gives for one base with |base| >= 2: the last
      quotient, then the remainders, most significant first. */
  function Digits(num: int, base: int): (ds: seq<int>)
    requires Abs(base) >= 2
    ensures |ds| >= 1
    decreases Abs(num)
  {
    if Abs(num) >= Abs(base) then
      QuotientShrinks(num, base);
      Digits(FloorDiv(num, base), base) + [FloorMod(num, base)]
    else [num]
  }

  /** func_base with one base: base 0 divides by zero; bases 1 and -1 never
      shrink a non-zero number, so the loop runs forever; any other base
      gives its digits. */
  function Base(base: int, num: int): (r: Res<seq<int>>)
    ensures base == 0 <==> r == Fail(ZeroDivision)
    ensures Abs(base) == 1 ==> r == (if num == 0 then Ok([0]) else Fail(Diverges))
    ensures Abs(base) >= 2 ==> r.Ok? && |r.val| >= 1
  {
    if base == 0 then Fail(ZeroDivision)
    else if Abs(base) == 1 then (if num == 0 then Ok([0]) else Fail(Diverges))
    else Ok(Digits(num, base))
  }

  /** func_base with a list of bases: one remainder per base, taken from the
      last base to the first; the final quotient is dropped. */
  function MixedDigits(num: int, bases: seq<Value>): (r: Res<seq<int>>)
    ensures r.Ok? ==> |r.val| == |bases|
    decreases |bases|
  {
    if bases == [] then Ok([])
    else
      var base :- ToInt(bases[|bases| - 1]);
      if base == 0 then Fail(ZeroDivision)
      else
        var front :- MixedDigits(FloorDiv(num, base), bases[..|bases| - 1]);
        Ok(front + [FloorMod(num, base)])
  }

  /** func_base on values: the digits of the atom b in the base a, or in the
      list of bases a. */
  function BaseOf(a: Value, b: Value): (r: Res<Option<Value>>)
    ensures b.List? ==> r.Fail?
  {
    match a
    case Atom(_, base) =>
      var num :- ToInt(b);
      var ds :- Base(base, num);
      Ok(Some(List(NumAtoms(ds))))
    case List(bases) =>
      var num :- ToInt(b);
      var ds :- MixedDigits(num, bases);
      Ok(Some(List(NumAtoms(ds))))
  }

  /** The loop of func_base for one base: while the number is at least the
      base in size, its remainder is put in front of the digits and it is
      replaced by its quotient; the number left comes first. */
  method DigitList(num0: int, base: int) returns (ds: seq<int>)
    requires Abs(base) >= 2
    ensures ds == Digits(num0, base)
  {
    var num := num0;
    var digits: seq<int> := [];
    while Abs(num) >= Abs(base)
      invariant Digits(num, base) + digits == Digits(num0, base)
      decreases Abs(num)
    {
      QuotientShrinks(num, base);
      assert Digits(num, base) == Digits(FloorDiv(num, base), base) + [FloorMod(num, base)];
      digits := [FloorMod(num, base)] + digits;
      num := FloorDiv(num, base);
    }
    ds := [num] + digits;
  }

  /** Digits put after a partial result, when there is one. */
  function Then(front: Res<seq<int>>, digits: seq<int>): Res<seq<int>> {
    if front.Ok? then Ok(front.val + digits) else front
  }

  /** The loop of func_base for a list of bases: the bases from the last to
      the first, each one's remainder put in front of the digits and the
      number replaced by its quotient. */
  method MixedList(num0: int, bases: seq<Value>) returns (r: Res<seq<int>>)
    ensures r == MixedDigits(num0, bases)
  {
    var num := num0;
    var digits: seq<int> := [];
    var i := |bases|;
    assert bases[..i] == bases;
    var whole := MixedDigits(num0, bases);
    assert whole.Ok? ==> whole.val + [] == whole.val;
    while i > 0
      invariant 0 <= i <= |bases|
      invariant Then(MixedDigits(num, bases[..i]), digits) == MixedDigits(num0, bases)
      decreases i
    {
      assert bases[..i][..i - 1] == bases[..i - 1];
      var av := ToInt(bases[i - 1]);
      if av.Fail? {
        assert MixedDigits(num, bases[..i]) == Fail(av.why);
        return Fail(av.why);
      }
      var base := av.val;
      if base == 0 {
        assert MixedDigits(num, bases[..i]) == Fail(ZeroDivision);
        return Fail(ZeroDivision);
      }
      var prev := MixedDigits(FloorDiv(num, base), bases[..i - 1]);
      assert MixedDigits(num, bases[..i]) == Then(prev, [FloorMod(num, base)]);
      assert prev.Ok? ==> (prev.val + [FloorMod(num, base)]) + digits == prev.val + ([FloorMod(num, base)] + digits);
      digits := [FloorMod(num, base)] + digits;
      num := FloorDiv(num, base);
      i := i - 1;
    }
    assert bases[..0] == [] && [] + digits == digits;
    r := Ok(digits);
  }

  /** func_base: the digits of the atom b in the base a, or under the list
      of bases a. */
  method FuncBase(a: Value, b: Value) returns (r: Res<Option<Value>>)
    ensures r == BaseOf(a, b)
  {
    var num :- ToInt(b);
    if a.Atom? {
      var base := a.n;
      if base == 0 {
        // The loop's first remainder divides by zero.
        return Fail(ZeroDivision);
      } else if Abs(base) == 1 {
        // A non-zero number is never smaller than the base in size, and
        // dividing by 1 or -1 leaves its size as it is.
        if num != 0 {
          return Fail(Diverges);
        }
        assert NumAtoms([0]) == [NumAtom(0)];
        return Ok(Some(List([NumAtom(0)])));
      }
      var ds := DigitList(num, base);
      r := Ok(Some(List(NumAtoms(ds))));
    } else {
      var ds :- MixedList(num, a.items);
      r := Ok(Some(List(NumAtoms(ds))));
    }
  }

  /** With a base of at least 2 and a number of at least 0 every digit lies
      in [0, base). */
  lemma {:induction false} DigitsInRange(num: int, base: int)
    requires base >= 2 && num >= 0
    ensures forall i :: 0 <= i < |Digits(num, base)| ==> 0 <= Digits(num, base)[i] < base
    decreases num
  {
    if num >= base {
      QuotientShrinks(num, base);
      DigitsInRange(FloorDiv(num, base), base);
    }
  }

  // ---------------------------------------------------------------------
  // Antibase

  /** The place value of the first digit: the product of the later bases. */
  function Prod(bs: seq<int>): int {
    if bs == [] then 1 else bs[0] * Prod(bs[1..])
  }

  /** The number a digit list stands for under a list of bases: each digit
      times the product of the bases after it (the first base is unused). */
  function Anti(bs: seq<int>, ns: seq<int>): int
    requires |bs| == |ns|
  {
    if ns == [] then 0 else ns[0] * Prod(bs[1..]) + Anti(bs[1..], ns[1..])
  }

  /** One more digit at the end shifts the others by its base. */
  lemma {:induction false} AntiAppend(bs: seq<int>, ns: seq<int>, b: int, n: int)
    requires |bs| == |ns|
    ensures Anti(bs + [b], ns + [n]) == Anti(bs, ns) * b + n
  {
    if ns == [] {
      assert (bs + [b])[1..] == [];
    } else {
      assert (bs + [b])[1..] == bs[1..] + [b];
      assert (ns + [n])[1..] == ns[1..] + [n];
      AntiAppend(bs[1..], ns[1..], b, n);
      ProdAppend(bs[1..], b);
      calc {
        Anti(bs + [b], ns + [n]);
        ns[0] * Prod(bs[1..] + [b]) + Anti(bs[1..] + [b], ns[1..] + [n]);
        ns[0] * (Prod(bs[1..]) * b) + (Anti(bs[1..], ns[1..]) * b + n);
        (ns[0] * Prod(bs[1..]) + Anti(bs[1..], ns[1..])) * b + n;
      }
    }
  }

  lemma {:induction false} ProdAppend(bs: seq<int>, b: int)
    ensures Prod(bs + [b]) == Prod(bs) * b
  {
    if bs != [] {
      assert (bs + [b])[1..] == bs[1..] + [b];
      ProdAppend(bs[1..], b);
    }
  }

  function Repeat(x: int, n: nat): (r: seq<int>)
    ensures |r| == n && forall i :: 0 <= i < n ==> r[i] == x
  {
    seq(n, _ => x)
  }

  /** The numbers of a list of atoms; a list inside has no number. */
  function AtomValues(vs: seq<Value>): (r: Res<seq<int>>)
    ensures r.Ok? <==> forall i :: 0 <= i < |vs| ==> vs[i].Atom?
    ensures r.Ok? ==> |r.val| == |vs| && forall i :: 0 <= i < |vs| ==> r.val[i] == vs[i].n
  {
    if vs == [] then Ok([])
    else
      var n :- ToInt(vs[0]);
      var rest :- AtomValues(vs[1..]);
      Ok([n] + rest)
  }

  /** func_antibase on values: an atom b is returned unchanged; an atom a
      stands for that base at every position; digits and bases are paired up
      to the shorter of the two lists. */
  function AntibaseOf(a: Value, b: Value): (r: Res<Option<Value>>)
    ensures b.Atom? ==> r == Ok(Some(b))
  {
    match b
    case Atom(_, _) => Ok(Some(b))
    case List(digits) =>
      var bases := if a.Atom? then seq(|digits|, _ => a) else a.items;
      var m := if |bases| < |digits| then |bases| else |digits|;
      var ns :- AtomValues(digits[..m]);
      var bs :- AtomValues(bases[..m]);
      Ok(Some(NumAtom(Anti(bs, ns))))
  }

  /** func_antibase: the pairs from the last one back, adding each digit
      times the running place value, then scaling the place value by the
      base. */
  method FuncAntibase(a: Value, b: Value) returns (r: Res<Option<Value>>)
    ensures r == AntibaseOf(a, b)
  {
    if b.Atom? {
      return Ok(Some(b));
    }
    var bases := if a.Atom? then seq(|b.items|, _ => a) else a.items;
    var m := if |bases| < |b.items| then |bases| else |b.items|;
    var ns :- AtomValues(b.items[..m]);
    var bs :- AtomValues(bases[..m]);
    var total := 0;
    var place := 1;
    var i := m;
    while i > 0
      invariant 0 <= i <= m
      invariant total == Anti(bs[i..], ns[i..]) && place == Prod(bs[i..])
      decreases i
    {
      i := i - 1;
      assert bs[i..][1..] == bs[i + 1..] && ns[i..][1..] == ns[i + 1..];
      assert Anti(bs[i..], ns[i..]) == ns[i] * place + total;
      assert Prod(bs[i..]) == bs[i] * place;
      total := total + ns[i] * place;
      place := place * bs[i];
    }
    assert bs[0..] == bs && ns[0..] == ns;
    r := Ok(Some(NumAtom(total)));
  }

  /** The digits of num in a base of size at least 2 read back under that
      base give num. */
  lemma {:induction false} AntiDigits(num: int, base: int)
    requires Abs(base) >= 2
    ensures Anti(Repeat(base, |Digits(num, base)|), Digits(num, base)) == num
    decreases Abs(num)
  {
    var ds := Digits(num, base);
    if Abs(num) >= Abs(base) {
      QuotientShrinks(num, base);
      var q := FloorDiv(num, base);
      var front := Digits(q, base);
      AntiDigits(q, base);
      assert ds == front + [FloorMod(num, base)];
      assert Repeat(base, |ds|) == Repeat(base, |front|) + [base];
      AntiAppend(Repeat(base, |front|), front, base, FloorMod(num, base));
      FloorDivMod(num, base);
      assert Anti(Repeat(base, |ds|), ds) == q * base + FloorMod(num, base);
    } else {
      assert Repeat(base, 1)[1..] == [];
    }
  }

  /** The round trip of `b` and `d`: converting an integer atom to a base of
      size at least 2 and back gives the number. */
  lemma BaseRoundTrip(base: int, num: int)
    requires Abs(base) >= 2
    ensures var ds := BaseOf(NumAtom(base), NumAtom(num));
      ds.Ok? && ds.val.Some? && AntibaseOf(NumAtom(base), ds.val.value) == Ok(Some(NumAtom(num)))
  {
    var digits := Digits(num, base);
    var l := List(NumAtoms(digits));
    assert BaseOf(NumAtom(base), NumAtom(num)) == Ok(Some(l));
    var bases := seq(|digits|, _ => NumAtom(base));
    assert NumAtoms(digits)[..|digits|] == NumAtoms(digits);
    assert bases[..|digits|] == bases;
    var av, ab := AtomValues(NumAtoms(digits)), AtomValues(bases);
    assert av.Ok? && av.val == digits;
    assert ab.Ok? && ab.val == Repeat(base, |digits|);
    AntiDigits(num, base);
  }
}

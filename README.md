# Jellyfish interpreter core in Dafny

Jellyfish is a two-dimensional, J-inspired array language. A program is
a grid of characters. The interpreter works in three stages:

1. **Tokenizing.** It reads the grid row by row into *items*:
   - data literals: `'c` characters, `"…"` strings, digit runs, and the
     `i`/`I` input literals;
   - function glyphs and operator glyphs of the vocabulary;
   - the control glyphs `B V F A E S X`.
2. **Connecting.** It links each item to the first item found scanning
   south of it (its left argument) and east of it (its right argument).
   The control glyphs met on the way block the value, the callable or
   the arguments, or turn the scan.
3. **Filling and evaluating.** It fills the items lazily from the top-left
   corner, children before parents, and evaluates the corner.

A function item applies its callable to its neighbours' values. An
operator item builds a new callable from its neighbours' callables or
values, and passes arguments on to it.

The vocabulary is a table that maps a glyph to a variadic callable,
with one form for one argument and one for two. It is filled one
definition at a time by `defun` and then finalised with `variadize`.

The project models:

- the engine of `interpreter.py` as imperative Dafny:
  - `Item` and `Graph` are classes whose fields are written once by fill
    and memoised once by evaluate;
  - fill and evaluate are proved equal to a pure reference semantics.
- the vocabulary of `vocab.py`:
  - the registry is a class with dictionary fields;
  - the arithmetic, list, comparison and indexing built-ins;
  - the operator combinators (const/flip, curry/precompose, swap,
    postcompose, hooks, forks, fold, index-directed modification);
  - the loops of the source (factorisation, base, antibase, fold,
    index, modification) as methods proved against specification
    functions.

Modules:

| module | file | contents |
|---|---|---|
| `Values` | values.dfy | atoms and nested lists, callables, the failure kinds (`Raised`, `Diverges`, `OutsideModel`) |
| `Grid` | grid.dfy | connection search, the tokenizer |
| `Semantics` | semantics.dfy | the reference meaning of fill and evaluate |
| `Engine` | engine.dfy | the `Item` and `Graph` classes, parse, fill, interpret |
| `Registry` | registry.dfy | `defun`, `variadize` and the finished tables |
| `Arith` | arith.dfy | the mathy built-ins, xor, factorisation, base and antibase |
| `Lists` | lists.dfy | equality, ordering, head/tail, reverse, rotate, append, set filters, masks |
| `Indexing` | indexing.dfy | unary and binary `@` |
| `Modify` | modify.dfy | the overwrite loop of `modify_indices` |
| `Combinators` | combinators.dfy | the operator built-ins |
| `Vocabulary` | vocabulary.dfy | the whole library, glyph by glyph, and its loading |

Behaviour of the code that the model keeps:

- **Control glyphs.** The tokenizer checks the vocabulary before the
  control glyphs (`interpreter.py:143-157`), so a glyph in both would be
  a function or an operator. No glyph of this library is in both.
- **Missing top-left cell.** `interpret` fills position `(0, 0)`. When
  no item is there, this is a missing-key error and not the dummy.
- **Empty grid.** It fails in `max()`.
- **Operator without operands.** An operator item whose operator
  returns no callable fails at evaluation, because `None` is called.
- **Data items** are never marked evaluated. Their value is the literal.

## Model

| member | source | states |
|---|---|---|
| Engine.Item.constructor | interpreter.py:21-29 | a new item carries its content and is unfilled and unevaluated, with no value, callable or arguments |
| Engine.Item.Evaluate | interpreter.py:31-35 | a function or operator item that is not yet evaluated calls its callable on its two arguments and, on success, memoises the value and marks itself evaluated; any other item returns its stored value and changes nothing; fill's fields are never touched |
| Grid.FindItem | interpreter.py:46-79 | the scan loop returns the reference connection; a target lies within the bounds; no target means every mask is off |
| Grid.ScanTarget | interpreter.py:49-55 | a connection's target is a data, function or operator cell inside the scanned bounds |
| Grid.ScanMasks | interpreter.py:48-65 | masks are only ever switched off on the way; a data target never passes a callable; no target passes nothing |
| Grid.BlockedScans | interpreter.py:58-61 | a south scan through `V` onto a data item passes arguments but no value; a scan through `B` yields no connection |
| Grid.DigitEnd | interpreter.py:120-129 | the end of a digit run: every column before it is a digit and the column at it is not (or the row ends) |
| Grid.StringBodyStep | interpreter.py:104-116 | one step of a string literal: `\n` and a trailing backslash give a newline, any other escaped character stands for itself, a plain character for itself |
| Grid.ReadString | interpreter.py:100-119 | the string loop reads exactly the reference body of the literal and stops at the closing quote or the row's end |
| Grid.ReadNumber | interpreter.py:120-129 | the digit loop stops at the end of the digit run and yields its decimal value |
| Grid.ReadLine | interpreter.py:130-142 | an input glyph consumes exactly the next input line; exhausted input raises |
| Grid.ScanRowCells | interpreter.py:88-159 | every cell the tokenizer makes for a row lies on that row, inside it, and is never a dummy |
| Grid.ScanGridCells | interpreter.py:86-159 | every cell of the tokenized grid lies on one of its rows and inside that row |
| Grid.TokenizeRow | interpreter.py:88-159 | the row loop yields the reference tokenization of the row, input reads included |
| Grid.Tokenize | interpreter.py:86-159 | the grid loop yields the reference tokenization, rows in order, consuming the input in token order |
| Grid.MaxWidth | interpreter.py:161 | the width bound is at least every row's length and is the length of some row |
| Semantics.TargetsBelow | interpreter.py:163-166 | the south target lies strictly below and the east target strictly right of an item, so filling terminates |
| Semantics.Propagate | interpreter.py:196-202 | an operator passes on the east neighbour's arguments when its connection lets them through and one is present, else the south neighbour's under its mask |
| Semantics.Prepare | interpreter.py:81-162 | parse succeeds with cells that all lie within the search bounds, none of them a dummy; an empty grid fails |
| Engine.NewItems | interpreter.py:97-157 | one fresh, unfilled item per tokenized cell |
| Engine.Connect | interpreter.py:163-166 | every cell is linked to its south and east connections as the scan finds them |
| Engine.Link | interpreter.py:160-167 | the triples hold a fresh initial item per cell with its two connections, and a separate dummy item |
| Engine.Graph.constructor | interpreter.py:160-168 | the graph is well formed over the linked triples |
| Engine.Build | interpreter.py:160-168 | a freshly built graph is consistent with the reference semantics, with no item filled |
| Engine.Parse | interpreter.py:81-168 | parse fails exactly as tokenizing does, and otherwise builds the graph of the tokenized program |
| Engine.Graph.EvaluateAt | interpreter.py:183-194 | evaluating a filled neighbour gives its reference value and leaves its fields unchanged |
| Engine.Graph.Fill | interpreter.py:170-174 | a filled item or the dummy is returned untouched; otherwise the result is the item with its reference fields, or the reference failure; filled items stay filled |
| Engine.Graph.FillItem | interpreter.py:175-204 | filling an item gives it its reference fields and marks it filled, or fails exactly as the reference does |
| Engine.Graph.Complete | interpreter.py:178-203 | once both neighbours are filled, the item gets its reference fields |
| Engine.Graph.StoreData | interpreter.py:175-177 | a data item's value and right argument are its literal |
| Engine.Graph.StoreControl | interpreter.py:203 | a control item is marked filled and nothing else changes |
| Engine.Graph.Store | interpreter.py:195-203 | the computed fields are written and the item is filled, keeping the graph consistent |
| Engine.Graph.ArgumentAt | interpreter.py:183-184 | a function's argument is the neighbour's value when the connection passes values, else none |
| Engine.Graph.OperandAt | interpreter.py:187-194 | an operand is the neighbour's callable when the connection passes callables and there is one, else its value when values pass, else none |
| Engine.Graph.OperandsAt | interpreter.py:186-194 | both operands, south then east, as the reference gives them |
| Engine.Graph.FillFunction | interpreter.py:181-184 | a function item's callable is its glyph's and its arguments are its neighbours' values under the masks |
| Engine.Graph.FillOperator | interpreter.py:185-202 | an operator item's callable is its operator applied to the two operands, with the arguments passed on |
| Engine.Interpret | interpreter.py:206-210 | running a program gives the reference value of the top-left item, or the reference failure |
| Registry.Register | vocab.py:22-32 | defining one arity fills that slot of the glyph and keeps its other slot and every other glyph |
| Registry.RegisterCommutes | vocab.py:22-32 | the unary and binary definitions of a glyph may come in either order |
| Registry.RegisterReplaces | vocab.py:22-32 | a later definition of the same arity replaces the earlier one |
| Registry.RegisterAllAt | vocab.py:22-32 | after a run of definitions a glyph is present exactly when it was already or some definition names it, and its slots are what its own definitions filled |
| Registry.Registry.constructor | vocab.py:9-10 | both tables start empty |
| Registry.Registry.DefineFunction | vocab.py:22-35 | `defun` for a function updates only the function table, as Register does |
| Registry.Registry.DefineOperator | vocab.py:22-37 | `defun` for an operator updates only the operator table |
| Registry.Registry.DefineFunctions | vocab.py:22-35 | a run of function definitions is their fold in order |
| Registry.Registry.DefineOperators | vocab.py:22-37 | a run of operator definitions is their fold in order |
| Registry.Variadize | vocab.py:612-627 | no arguments give `None`, one argument on either side the unary form, two the binary form |
| Registry.Variadic | vocab.py:612-627 | a finished glyph's callable: one argument on either side calls the unary slot, two the binary slot, and an empty slot is not callable |
| Registry.Finished | vocab.py:901-902 | the finished table has the same glyphs, each made variadic |
| Registry.Registry.Finish | vocab.py:901-902 | finishing keeps every glyph and makes each variadic |
| Registry.Load | vocab.py:9-37 | loading runs the function and operator definitions in order and finishes both tables |
| Vocabulary.LoadLibrary | vocab.py:48-902 | the loaded vocabulary is the library's definitions registered in order and finished |
| Vocabulary.LoadedFunction | vocab.py:48-598 | a glyph is a function exactly when the library defines it, and its callable is the variadic pair of its own definitions |
| Vocabulary.LoadedOperator | vocab.py:629-902 | the same for operator glyphs |
| Arith.FloorMod | vocab.py:160-163 | Python's `%`: the result has the sign of the divisor and is smaller than it in magnitude |
| Arith.FloorDivMod | vocab.py:222-225 | Python's `//` and `%` recombine to the dividend |
| Arith.MathyUnary | vocab.py:39-40 | a mathy built-in keeps the atom's tag and maps its number; a list is refused |
| Arith.MathyBinary | vocab.py:42-43 | a binary mathy built-in keeps the left atom's tag and combines the numbers |
| Arith.Subtract | vocab.py:119-122 | binary `-` takes its operands reversed: the result added to the first operand gives the second |
| Arith.Signum | vocab.py:124-127 | the sign is -1, 0 or 1 and times the magnitude gives the number back |
| Arith.Reciprocal | vocab.py:134-141 | the reciprocal of 0 is 0; for every other integer the result is a float, outside the integer values modelled |
| Arith.Divide | vocab.py:142-150 | division by or of 0 gives 0; otherwise an integer result exactly when it divides, and then divisor times result is the dividend |
| Arith.Modulus | vocab.py:157-163 | modulus by or of 0 gives 0; otherwise Python's remainder with the divisor's sign, recombining with the floor quotient |
| Arith.Xor | vocab.py:202-205 | Python's `^` on integers is negative exactly when one operand is |
| Arith.XorInvolution | vocab.py:202-205 | xor by the same number twice gives the number back |
| Arith.XorLaws | vocab.py:202-205 | xor commutes, 0 is its identity, and a number xor itself is 0 |
| Arith.Factors | vocab.py:190-198 | trial division from a candidate divisor yields factors no smaller than it whose product is the number |
| Arith.FactorsStep | vocab.py:192-196 | one step of trial division: a divisor is emitted and divided out, otherwise the candidate advances |
| Arith.FactorsPrimeSorted | vocab.py:190-198 | the factors are primes in ascending order |
| Arith.Factorize | vocab.py:183-199 | the factors multiply to the number; 0 gives [0]; a positive number gives its sorted prime factors; a negative one gives -1 followed by them |
| Arith.TrialDivision | vocab.py:189-198 | the trial-division loop yields the reference factors |
| Arith.FactorList | vocab.py:183-199 | the factorisation routine yields Factorize of the number |
| Arith.FuncFactorize | vocab.py:181-199 | unary `x` on an atom is the list of its factors; a list is refused |
| Arith.Digits | vocab.py:218-225 | the digits of a number in a base of magnitude at least 2 are never empty |
| Arith.DigitsInRange | vocab.py:218-225 | for a non-negative number and a positive base every digit lies in 0 up to the base |
| Arith.DigitList | vocab.py:216-226 | the single-base loop yields the reference digits |
| Arith.Base | vocab.py:213-226 | base 0 raises division by zero; base ±1 loops forever except on 0; any other base gives a non-empty digit list |
| Arith.MixedDigits | vocab.py:227-234 | a list of bases gives one digit per base |
| Arith.MixedList | vocab.py:227-234 | the mixed-base loop, from the last base to the first, yields the reference digits |
| Arith.BaseOf | vocab.py:211-234 | binary `b` on a list number is refused |
| Arith.FuncBase | vocab.py:213-234 | func_base yields the reference result for every base and number |
| Arith.AntibaseOf | vocab.py:241-253 | binary `d` on an atom number returns it |
| Arith.FuncAntibase | vocab.py:243-253 | the antibase loop over the reversed pairs yields the reference total |
| Arith.AntiDigits | vocab.py:243-253 | reading a number's digits back in their base gives the number |
| Arith.BaseRoundTrip | vocab.py:207-253 | `d` undoes `b`: converting a number to base digits and back yields the number, for every base of magnitude at least 2 |
| Lists.Equals | vocab.py:260-264 | `=` is 1 exactly when the two values are equal |
| Lists.LessTrichotomy | vocab.py:274-285 | where comparison is defined it is defined both ways and exactly one of less, equal, greater holds |
| Lists.LessSeqTrichotomy | vocab.py:284-285 | the same for the lexicographic order of lists |
| Lists.LessThan | vocab.py:274-285 | an atom is below a list, a list above an atom; two atoms compare by tag and then number, and two lists by the lexicographic order, failing where that order does |
| Lists.LessSeqPrefix | vocab.py:284 | a proper prefix of a list is below it |
| Lists.LessSeqFirstDifference | vocab.py:284 | past a common prefix, the first differing position decides the order of two lists |
| Lists.Min | vocab.py:170-171 | `m` is defined exactly where its operands compare, and gives the second operand exactly when it is below the first or equal to it |
| Lists.Max | vocab.py:178-179 | `M` is defined exactly where its operands compare, and gives the second operand exactly when the first is below it or equal to it |
| Lists.GreaterThan | vocab.py:293-304 | `a > b` is `b < a` in every case |
| Lists.LessThanOrder | vocab.py:274-304 | `<` is irreflexive and for distinct values exactly one of `a < b`, `b < a` is 1 |
| Lists.MinMax | vocab.py:170-179 | min and max of two comparable values are those two values, with min not above max |
| Lists.HeadDec | vocab.py:267-272 | an atom less one; a list's first item, which an empty list lacks |
| Lists.TailInc | vocab.py:286-291 | an atom plus one; a list without its first item |
| Lists.HeadTail | vocab.py:267-291 | head and tail put back together give the list; on atoms they undo each other |
| Lists.Reverse | vocab.py:450-455 | an atom is its own reverse; a list's items in reverse order |
| Lists.ReverseInvolution | vocab.py:450-455 | reversing twice gives the value back |
| Lists.Rotate | vocab.py:457-464 | an atom or empty list is returned; otherwise item i of the result is item i + k (mod length); an index that is not an atom is refused |
| Lists.RotatePermutes | vocab.py:457-464 | rotation permutes the items |
| Lists.RotateByLength | vocab.py:457-464 | rotating by a multiple of the length changes nothing |
| Lists.RotateCompose | vocab.py:457-464 | rotating by x after y is rotating by x + y |
| Lists.Append | vocab.py:518-528 | the result is the left operand's elements followed by the right's, an atom counting as one element |
| Lists.AppendAssociative | vocab.py:518-528 | appending is associative |
| Lists.Intersection | vocab.py:395-401 | an element is in the result exactly when it is in both operands; with FilterAppend, the items keep the left operand's order |
| Lists.Without | vocab.py:425-431 | an element is in the result exactly when it is in the left operand and not the right; with FilterAppend, the items keep the left operand's order |
| Lists.FilterAppend | vocab.py:395-431 | the filter behind `n` and `N` keeps order: filtering two lists one after the other gives the kept items of the first followed by those of the second |
| Lists.IntersectionWithout | vocab.py:395-431 | intersection and difference split the left operand's elements, multiplicities included |
| Lists.MaskToIndices | vocab.py:466-472 | an atom count gives that many zeros; a mask converts exactly when its items are atoms, into each position repeated as often as its count says; the indices come out in ascending order |
| Lists.Expand | vocab.py:472 | the expansion of a mask lies in the range of its positions and is in ascending order |
| Lists.IndicesToMask | vocab.py:478-484 | no indices have no largest index and raise |
| Lists.MaskRoundTrip | vocab.py:466-484 | `K` undoes `k` on a mask whose last count is positive |
| Lists.IndicesRoundTrip | vocab.py:466-484 | `k` after `K` gives back the non-negative indices as a multiset |
| Indexing.Indices | vocab.py:549-560 | unary `@` of an atom is 0; of a list, one path per atom of its flattening |
| Indexing.Index | vocab.py:562-573 | an atom is its own item; an empty list cannot be indexed |
| Indexing.FuncIndex | vocab.py:564-573 | the loop of func_index yields the reference walk, stopping at the first atom |
| Indexing.IndexByPaths | vocab.py:549-573 | following the k-th path of unary `@` with binary `@` gives the k-th atom of the flattened list |
| Modify.Address | vocab.py:879-896 | the position a path resolves to is a valid, non-empty address no longer than the path; its first position is the first coordinate modulo the list's length |
| Modify.AddressSteps | vocab.py:884-896 | each position is its coordinate modulo the length of the list the earlier positions lead to, every list on the way is non-empty, and the address stops at the end of the path or at the first atom |
| Modify.AddressWalk | vocab.py:873-896 | the position an overwrite resolves to holds what `func_index` reads along the same path, the item the new value is derived from |
| Modify.Put | vocab.py:878-897 | an atom is replaced outright; a list keeps its length |
| Modify.ReplaceAt | vocab.py:896 | after an overwrite the addressed position holds the new item |
| Modify.ReplaceElsewhere | vocab.py:896 | an overwrite leaves every position whose address parts ways with it unchanged |
| Modify.PutEffect | vocab.py:878-897 | one overwrite puts the item at its path's position, keeps the list's length and leaves every diverging position unchanged |
| Modify.ModifyLoop | vocab.py:872-897 | the overwrite loop yields the reference fold of the path/item pairs |
| Modify.ModifyIndices | vocab.py:876-897 | the whole modification of a list keeps its length |
| Modify.PutKeeps | vocab.py:884-896 | one overwrite leaves a top-level position its path does not select unchanged; an empty path selects 0, any other path its first coordinate modulo the length |
| Modify.PutAllLength | vocab.py:882-897 | all the overwrites of a list keep its length |
| Modify.PutAllKeeps | vocab.py:882-897 | all the overwrites leave a top-level position that no path selects unchanged |
| Modify.ModifyKeeps | vocab.py:876-897 | modify_indices changes no top-level position of a list that none of its paths selects |
| Combinators.Make | vocab.py:612-627 | the variadic callable built from a unary and a binary form |
| Combinators.ConstOrFlip | vocab.py:646-652 | a value becomes the constant callable; a callable gets its arguments exchanged |
| Combinators.FlipTwice | vocab.py:646-652 | flipping twice gives back the callable |
| Combinators.CurryOrPrecompose | vocab.py:654-666 | two values pair up on one and on two arguments; a value is fixed as first or second argument of the callable, which gets the last argument (value on the left) or the first (value on the right); two callables give g after f on one argument and f of g on each argument on two |
| Combinators.OperId | vocab.py:629-634 | a callable is returned as it is; a value raises |
| Combinators.OperLeft | vocab.py:636-644 | two callables give the first; a value and a callable give the constant callable of the call's result, which fails exactly when the call does; two values raise |
| Combinators.SwapArity | vocab.py:667-671 | on one argument the callable gets it twice; on two, only the second |
| Combinators.SwapTwice | vocab.py:667-671 | swapping twice gives back the callable on one argument |
| Combinators.TwoSidedOrPostcompose | vocab.py:672-688 | two values raise; a value and a callable give the two-sided curry g(f, g(a, f)) or f(f(g, a), g) on one argument, and fail on two (iterate is outside the model); two callables give f after g on one and on two arguments |
| Combinators.PostcomposeIsPrecompose | vocab.py:654-688 | postcomposing f after g is precomposing g before f on one argument |
| Combinators.LeftUnaryHook | vocab.py:689-692 | the pair of f's result and the argument |
| Combinators.LeftHook | vocab.py:694-697 | g of f's result and the last argument |
| Combinators.RightUnaryHook | vocab.py:699-702 | the pair of the first argument and f's result on the last |
| Combinators.RightHook | vocab.py:704-707 | f of the first argument and g's result on the last |
| Combinators.LeftUnaryFork | vocab.py:709-712 | the pair of f on all arguments and the last argument |
| Combinators.LeftFork | vocab.py:714-717 | g of f on all arguments and the last argument |
| Combinators.RightUnaryFork | vocab.py:719-722 | the pair of the first argument and f on all arguments |
| Combinators.RightFork | vocab.py:724-727 | f of the first argument and g on all arguments |
| Combinators.LeftHookIsFork | vocab.py:694-697 | binary `(` is binary `[` whose inner callable f sees only the first argument |
| Combinators.RightHookIsFork | vocab.py:704-707 | binary `)` is binary `]` whose inner callable g sees only the last argument |
| Combinators.LeftUnaryHookIsFork | vocab.py:689-692 | unary `(` is unary `[` whose callable sees only the first argument |
| Combinators.RightUnaryHookIsFork | vocab.py:699-702 | unary `)` is unary `]` whose callable sees only the last argument |
| Combinators.FoldLeftAppend | vocab.py:796-810 | folding over a concatenation is folding the second part from the result of the first |
| Combinators.Folded | vocab.py:796-803 | the loop of `folded` gives an atom as it is, 0 for an empty list, otherwise the left fold from the first item |
| Combinators.FoldedInit | vocab.py:805-810 | the loop of `folded_init` gives f(a, b) for an atom b, otherwise the left fold from a |
| Combinators.FoldedInitIsFolded | vocab.py:796-810 | folding from a start value is folding the list with that value put in front |
| Combinators.JoinOrFold | vocab.py:784-811 | unary `/` on a callable is the fold on one argument and the fold from a start value on two |
| Combinators.ModifyArgs | vocab.py:873-874 | the paths and new items come from ind's result on a, and fail when ind does |
| Combinators.ModifyWith | vocab.py:872-897 | modify_indices succeeds exactly when deriving the paths and items and then ModifyIndices succeed, gives ModifyIndices' result, and keeps a list's length |
| Combinators.AsFn | vocab.py:870-871 | a value operand becomes its constant callable; a callable is kept |
| Combinators.OperModifyIndices | vocab.py:867-899 | binary `Z` modifies its one argument, or its second one with the first given to both callables, by the paths and items of the two operands |
| Combinators.OperUnaryZ | vocab.py:863-865 | unary `Z` raises |
| Vocabulary.FactorizeOf | vocab.py:183-199 | unary `x` on an atom gives its factors as number atoms; a list is refused |

## Left out

- Reading the input (`input()`) and parsing an input line. The `i`/`I` glyphs take their lines from a
  list and `parse_value` is a parameter. Output (`p`, `P`) and the input functions `j`, `J` lie outside
  the model. Their unary forms fail with `OutsideModel`.
- The value library's helpers `thread_unary` and `thread_binary`, which are not part of this model, are
  parameters (`Combinators.Env`). Every built-in the library wraps with them is wrapped with them here.
- These helpers are not part of this model either: `iterate`, `iterate_until`, `join_times`,
  `intersperse`, `is_truthy`, `shape`, `reshape`, `uniques`, `un_range`, `bin_range`, `prefixes`,
  `infixes`, `cartesian_product`, `full_copy`. Every built-in that needs one fails with `OutsideModel`:
  - the functions `u` (`uniques`), `r` (`un_range`, `bin_range`), `$` (`shape`, `reshape`), unary `,`
    (`flatten`) and unary `N` (`is_truthy`);
  - the operators `` ` `` `L` `\`, unary `O` and binary `/`. These fail as soon as the operator is
    applied, when the item is filled. The source builds a callable there and fails only if that
    callable is called;
  - unary `/` with a value operand (`join_times`). As in the source, applying it builds a callable,
    and that callable fails with `OutsideModel` when it is called;
  - the binary form of a two-sided `&` (`iterate`).
- The built-ins of `^` (square and init, power and take), `v` (square root and last, root and drop),
  `c` (to character, membership), `#` (length, repetition) and `o` (sort, sort by keys) need none of
  those helpers. They are outside the list and number built-ins this model covers, and fail with
  `OutsideModel`. The roots of `v` and the powers of `^` with negative exponents are floats as well.
- Randomness (`?`) and the `itertools` functions (`!`, `C`, `O`).
- Floating point.
  - Arith.Reciprocal: a non-zero integer's reciprocal is a float, and the model fails there with
    `OutsideModel` instead of computing it.
  - Arith.Divide: an inexact division gives a float in the source, and the model fails there with
    `OutsideModel`.
  - Rounding, floor and ceiling (`|`, `m`, `M` unary) are the identity on the integers they are
    modelled on. The source's round goes through a float, so it is exact only below 2^53; numbers are
    unbounded integers here.
  - Values are integers. The real branches of base and antibase are left out.
- Arith.Base: base ±1 makes the source loop forever; the model returns `Diverges` instead of not
  terminating.
- Lists.Less: the order between the two atom tags is decided in the value library, which is not part
  of this model. It is a parameter (`charFirst`). Comparing an atom with a list inside `min`, `max` or a
  list comparison fails with `OutsideModel`.
- Lists.GreaterThan: Python's `a > b` on two atoms is taken to be `b < a`. This assumes that the value
  library's atom type makes `>` the converse of `<`; that library is not part of this model.
- Lists.Max: Python's `max(a, b)` decides by `b > a`; the model decides by `a < b`, which rests on the
  same converse assumption as the line above.
- Equality of values is structural.
- Python's `None` used as a value (a missing argument placed inside a list) fails with `OutsideModel`.
- `flatten` in `func_index` is taken to flatten to atoms.
- Combinators.ModifyArgs: the rank -2 threaded `lambda x: x if is_value(x) else flatten(x)` is taken to
  be the identity. This assumes that `is_value`, which is not part of this model, holds for every atom
  and list.
- Modify.ModifyIndices: works on immutable values. Python mutates a copy of the list in place, so a
  later path can reach into a list item inserted by an earlier one, and one item object repeated for
  every path is shared between positions. The model writes each position independently, so that
  aliasing is not captured.
- Error messages: only the kind of failure (raised, diverging, outside the model) is modelled, not
  Python's exact text.
- The recursion depth of fill (`level`) is unused in the source and not modelled. So is the
  interpreter's stack limit.

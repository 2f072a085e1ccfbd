/** The reference semantics of a program: what fill stores in each item and
    what evaluate returns for it, as functions of the tokenized cells alone.
    The engine's items are proved to agree with these functions. */
module Semantics {
  import opened Values
  import opened Grid

  /** The fields fill sets on a function or operator item. */
  datatype Fields = Fields(func: Option<Fn>, lArg: Option<Value>, rArg: Option<Value>)

  const Blank := Fields(None, None, None)

  /** Every cell lies inside the bounds the searches use. */
  ghost predicate Placed(cells: map<Pos, Content>, maxX: int, maxY: int) {
    forall p :: p in cells ==> p.0 <= maxX && p.1 <= maxY
  }

  function SouthOf(cells: map<Pos, Content>, maxX: int, maxY: int, p: Pos): Connection {
    Scan(cells, maxX, maxY, p.0, p.1 + 1, South, true, true, true)
  }

  function EastOf(cells: map<Pos, Content>, maxX: int, maxY: int, p: Pos): Connection {
    Scan(cells, maxX, maxY, p.0 + 1, p.1, East, true, true, true)
  }

  /** Distance to the far corner; connections strictly decrease it. */
  function Measure(maxX: int, maxY: int, pos: Option<Pos>): nat {
    match pos
    case None => 0
    case Some(p) => if p.0 <= maxX && p.1 <= maxY then 1 + (maxX - p.0) + (maxY - p.1) else 0
  }

  /** Both connections of a cell lead to cells strictly south or east of it. */
  lemma TargetsBelow(cells: map<Pos, Content>, maxX: int, maxY: int, p: Pos)
    requires Placed(cells, maxX, maxY) && p in cells
    ensures var s := SouthOf(cells, maxX, maxY, p).pos;
      s.Some? ==> (s.value in cells && s.value.1 > p.1 && s.value.0 >= p.0
                   && Measure(maxX, maxY, s) < Measure(maxX, maxY, Some(p)))
    ensures var e := EastOf(cells, maxX, maxY, p).pos;
      e.Some? ==> (e.value in cells && e.value.0 > p.0 && e.value.1 >= p.1
                   && Measure(maxX, maxY, e) < Measure(maxX, maxY, Some(p)))
  {
    ScanTarget(cells, maxX, maxY, p.0, p.1 + 1, South, true, true, true);
    ScanTarget(cells, maxX, maxY, p.0 + 1, p.1, East, true, true, true);
  }

  /** Calling an item's resolved callable; an operator with no operands has none. */
  function Invoke(func: Option<Fn>, lArg: Option<Value>, rArg: Option<Value>): Res<Option<Value>> {
    match func
    case None => Fail(Raised("'NoneType' object is not callable"))
    case Some(f) => f(lArg, rArg)
  }

  /** The argument fields an operator item passes on: the east neighbour's
      when the east connection lets them through and one of them is present,
      the south neighbour's (under the south connection's mask) otherwise. */
  function Propagate(sc: Connection, south: Fields, ec: Connection, east: Fields): (r: (Option<Value>, Option<Value>))
    ensures ec.hasArgs && (east.lArg.Some? || east.rArg.Some?) ==> r == (east.lArg, east.rArg)
    ensures !(ec.hasArgs && (east.lArg.Some? || east.rArg.Some?)) ==>
      r == if sc.hasArgs then (south.lArg, south.rArg) else (None, None)
  {
    var rl := if ec.hasArgs then east.lArg else None;
    var rr := if ec.hasArgs then east.rArg else None;
    if rl.None? && rr.None? then
      (if sc.hasArgs then south.lArg else None, if sc.hasArgs then south.rArg else None)
    else (rl, rr)
  }

  /** A function item's argument from one neighbour whose value is v: the
      value when the connection lets values through, else none. */
  function ArgFrom(c: Connection, v: Res<Option<Value>>): Res<Option<Value>> {
    if c.hasValue then v else Ok(None)
  }

  /** An operator's operand from one neighbour with fields nbor and value v:
      its callable when the connection lets callables through and it has one,
      else its value when the connection lets values through, else none. */
  function OperandFrom(c: Connection, nbor: Fields, v: Res<Option<Value>>): Res<Option<Operand>> {
    if c.hasFunc && nbor.func.Some? then Ok(Some(Fun(nbor.func.value)))
    else if c.hasValue then
      var x :- v;
      Ok(if x.Some? then Some(Val(x.value)) else None)
    else Ok(None)
  }

  /** A function item's fields: its own callable and its arguments, the
      south one first. */
  function FunctionFields(f: Fn, l: Res<Option<Value>>, r: Res<Option<Value>>): Res<Fields> {
    var lv :- l;
    var rv :- r;
    Ok(Fields(Some(f), lv, rv))
  }

  /** An operator item's fields: the callable the operator builds from its
      operands (the south one first) and the arguments it passes on. */
  function OperatorFields(op: Oper, lIn: Res<Option<Operand>>, rIn: Res<Option<Operand>>,
                          args: (Option<Value>, Option<Value>)): Res<Fields> {
    var l :- lIn;
    var r :- rIn;
    var func :- op(l, r);
    Ok(Fields(func, args.0, args.1))
  }

  /** One step of fill for a cell with content c, given its connections
      and what fill and evaluate give at their targets: a data cell holds its
      literal as the right argument; any other cell fails when its south,
      then its east neighbour fails, and a function or operator cell builds
      its fields from them. */
  function StepFields(c: Content, sc: Connection, south: Res<Fields>, southVal: Res<Option<Value>>,
                      ec: Connection, east: Res<Fields>, eastVal: Res<Option<Value>>): Res<Fields>
  {
    if c.DataItem? then Ok(Fields(None, None, Some(c.v)))
    else if c.DummyItem? then Ok(Blank)
    else
      var s :- south;
      var e :- east;
      if c.FunctionItem? then FunctionFields(c.f, ArgFrom(sc, southVal), ArgFrom(ec, eastVal))
      else if c.OperatorItem? then
        OperatorFields(c.op, OperandFrom(sc, s, southVal), OperandFrom(ec, e, eastVal), Propagate(sc, s, ec, e))
      else Ok(Blank)
  }

  /** What evaluate returns for a filled cell with content c: a data cell its
      literal, a function or operator cell its callable applied to its
      arguments, anything else nothing. */
  function StepValue(c: Content, fields: Res<Fields>): Res<Option<Value>> {
    var f :- fields;
    if c.DataItem? then Ok(Some(c.v))
    else if c.FunctionItem? || c.OperatorItem? then Invoke(f.func, f.lArg, f.rArg)
    else Ok(None)
  }

  /** What fill stores in the item at p: one step over what fill stores at
      its south and east connection targets. */
  function Resolve(cells: map<Pos, Content>, maxX: int, maxY: int, p: Pos): Res<Fields>
    requires Placed(cells, maxX, maxY) && p in cells
    decreases Measure(maxX, maxY, Some(p)), 1
  {
    var sc := SouthOf(cells, maxX, maxY, p);
    var ec := EastOf(cells, maxX, maxY, p);
    TargetsBelow(cells, maxX, maxY, p);
    StepFields(cells[p], sc, ResolveAt(cells, maxX, maxY, sc.pos), ValueAt(cells, maxX, maxY, sc.pos),
               ec, ResolveAt(cells, maxX, maxY, ec.pos), ValueAt(cells, maxX, maxY, ec.pos))
  }

  /** Fill at a connection target; no target stands for the dummy item. */
  function ResolveAt(cells: map<Pos, Content>, maxX: int, maxY: int, pos: Option<Pos>): Res<Fields>
    requires Placed(cells, maxX, maxY) && (pos.Some? ==> pos.value in cells)
    decreases Measure(maxX, maxY, pos), 2
  {
    match pos
    case None => Ok(Blank)
    case Some(p) => Resolve(cells, maxX, maxY, p)
  }

  /** What evaluate returns for the item at pos once it is filled; the
      dummy has no value. */
  function ValueAt(cells: map<Pos, Content>, maxX: int, maxY: int, pos: Option<Pos>): Res<Option<Value>>
    requires Placed(cells, maxX, maxY) && (pos.Some? ==> pos.value in cells)
    decreases Measure(maxX, maxY, pos), 2
  {
    match pos
    case None => Ok(None)
    case Some(p) => StepValue(cells[p], Resolve(cells, maxX, maxY, p))
  }

  /** A tokenized program and the bounds its searches use. */
  datatype Program = Program(cells: map<Pos, Content>, maxX: int, maxY: int)

  /** What parse builds on: the grid's cells, the width of its widest row
      and its height. Tokenizing may raise (input runs out), and an empty
      grid has no widest row. Every cell lies inside the bounds. */
  function Prepare(grid: seq<string>, vocab: Vocab, inputs: seq<string>, parseValue: string -> Value): (r: Res<Program>)
    ensures r.Ok? ==> Placed(r.val.cells, r.val.maxX, r.val.maxY)
    ensures r.Ok? ==> forall p :: p in r.val.cells ==> !r.val.cells[p].DummyItem?
  {
    var s :- ScanGrid(grid, 0, vocab, inputs, parseValue);
    if grid == [] then Fail(Raised("max() arg is an empty sequence"))
    else
      ScanGridCells(grid, 0, vocab, inputs, parseValue);
      Ok(Program(s.cells, MaxWidth(grid), |grid|))
  }

  /** What running a program gives: the value of the top-left cell, or the
      failure of parse, or a missing-key failure when no cell is there. */
  function Interpretation(grid: seq<string>, vocab: Vocab, inputs: seq<string>,
                          parseValue: string -> Value): Res<Option<Value>>
  {
    var prog :- Prepare(grid, vocab, inputs, parseValue);
    if (0, 0) !in prog.cells then Fail(Raised("KeyError: (0, 0)"))
    else ValueAt(prog.cells, prog.maxX, prog.maxY, Some((0, 0)))
  }
}

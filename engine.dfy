/** The lazy evaluation engine: one item per cell, the recursive fill that
    resolves an item from its south and east neighbours, the evaluate-once
    cache, and interpretation from the top-left cell.

    A Graph caches, for every cell, the reference fields (Resolve) and value
    (ValueAt) of Semantics; every filled or evaluated item is kept equal to
    them, so whatever fill and evaluate return is what the reference
    semantics says. */
module Engine {
  import opened Values
  import opened Grid
  import opened Semantics

  class Item {
    const content: Content
    var filled: bool
    var evald: bool
    var value: Option<Value>
    var func: Option<Fn>
    var lArg: Option<Value>
    var rArg: Option<Value>
    /** The cell the item was made for; none for the dummy. */
    ghost const cell: Option<Pos>

    constructor (content: Content, ghost cell: Option<Pos>)
      ensures this.content == content && this.cell == cell
      ensures !filled && !evald
      ensures value == None && func == None && lArg == None && rArg == None
    {
      this.content := content;
      this.cell := cell;
      filled, evald := false, false;
      value, func, lArg, rArg := None, None, None, None;
    }

    function Type(): ItemType { content.Type() }

    /** As parse creates it: nothing filled, evaluated or stored. */
    ghost predicate Initial()
      reads this
    {
      !filled && !evald && value == None && func == None && lArg == None && rArg == None
    }

    /** A function or operator item calls its callable once and caches the
        result; later calls, and every other kind of item, return the stored
        value without changing anything. */
    method Evaluate() returns (r: Res<Option<Value>>)
      modifies this
      ensures filled == old(filled) && func == old(func) && lArg == old(lArg) && rArg == old(rArg)
      ensures (Type() == Function || Type() == Operator) && !old(evald) ==>
        && r == Invoke(func, lArg, rArg)
        && (r.Ok? ==> evald && value == r.val)
        && (r.Fail? ==> unchanged(this))
      ensures !((Type() == Function || Type() == Operator) && !old(evald)) ==>
        unchanged(this) && r == Ok(value)
    {
      if (Type() == Function || Type() == Operator) && !evald {
        r := Invoke(func, lArg, rArg);
        if r.Ok? {
          value := r.val;
          evald := true;
        }
      } else {
        r := Ok(value);
      }
    }
  }

  /** An item with its south and east connections. */
  datatype Entry = Entry(item: Item, south: Connection, east: Connection)

  /** The recorded fields of a connection target; the dummy has none. */
  ghost function RecordedFields(spec: map<Pos, Res<Fields>>, pos: Option<Pos>): Res<Fields> {
    if pos.Some? && pos.value in spec then spec[pos.value] else Ok(Blank)
  }

  /** The recorded value of a connection target; the dummy has none. */
  ghost function RecordedValue(vals: map<Pos, Res<Option<Value>>>, pos: Option<Pos>): Res<Option<Value>> {
    if pos.Some? && pos.value in vals then vals[pos.value] else Ok(None)
  }

  /** The connections of the cell at p lead to cells strictly closer to
      the far corner. */
  ghost predicate Leads(triples: map<Pos, Entry>, maxX: int, maxY: int, p: Pos) {
    && p in triples && 0 < Measure(maxX, maxY, Some(p))
    && (var s := triples[p].south.pos;
        s.Some? ==> s.value in triples && Measure(maxX, maxY, s) < Measure(maxX, maxY, Some(p)))
    && (var e := triples[p].east.pos;
        e.Some? ==> e.value in triples && Measure(maxX, maxY, e) < Measure(maxX, maxY, Some(p)))
  }

  /** The recorded fields and value of the cell at p are one step of fill
      and evaluate over those of its connection targets. */
  ghost predicate Follows(triples: map<Pos, Entry>, spec: map<Pos, Res<Fields>>,
                          vals: map<Pos, Res<Option<Value>>>, p: Pos) {
    && p in triples && p in spec && p in vals
    && var e := triples[p];
    && spec[p] == StepFields(e.item.content, e.south, RecordedFields(spec, e.south.pos), RecordedValue(vals, e.south.pos),
                             e.east, RecordedFields(spec, e.east.pos), RecordedValue(vals, e.east.pos))
    && vals[p] == StepValue(e.item.content, spec[p])
  }

  /** The fields and value Resolve and ValueAt give every cell. */
  ghost method References(cells: map<Pos, Content>, maxX: int, maxY: int)
    returns (spec: map<Pos, Res<Fields>>, vals: map<Pos, Res<Option<Value>>>)
    requires Placed(cells, maxX, maxY)
    ensures spec.Keys == cells.Keys && vals.Keys == cells.Keys
    ensures forall p :: p in cells ==> spec[p] == Resolve(cells, maxX, maxY, p)
    ensures forall p :: p in cells ==> vals[p] == ValueAt(cells, maxX, maxY, Some(p))
  {
    spec := map p | p in cells :: Resolve(cells, maxX, maxY, p);
    vals := map p | p in cells :: ValueAt(cells, maxX, maxY, Some(p));
  }

  /** Resolve and ValueAt follow one step of fill and evaluate at every
      cell, and the connections lead towards the far corner. */
  lemma Recorded(triples: map<Pos, Entry>, cells: map<Pos, Content>, maxX: int, maxY: int,
                 spec: map<Pos, Res<Fields>>, vals: map<Pos, Res<Option<Value>>>)
    requires Placed(cells, maxX, maxY) && triples.Keys == cells.Keys
    requires forall p :: p in triples ==> triples[p].item.content == cells[p]
    requires forall p :: p in triples ==>
      triples[p].south == SouthOf(cells, maxX, maxY, p) && triples[p].east == EastOf(cells, maxX, maxY, p)
    requires spec.Keys == cells.Keys && vals.Keys == cells.Keys
    requires forall p :: p in cells ==> spec[p] == Resolve(cells, maxX, maxY, p)
    requires forall p :: p in cells ==> vals[p] == ValueAt(cells, maxX, maxY, Some(p))
    ensures forall p :: p in triples ==> Leads(triples, maxX, maxY, p) && Follows(triples, spec, vals, p)
  {
    forall p | p in triples
      ensures Leads(triples, maxX, maxY, p) && Follows(triples, spec, vals, p)
    {
      TargetsBelow(cells, maxX, maxY, p);
      var s := triples[p].south.pos;
      var e := triples[p].east.pos;
      assert RecordedFields(spec, s) == ResolveAt(cells, maxX, maxY, s) && RecordedValue(vals, s) == ValueAt(cells, maxX, maxY, s);
      assert RecordedFields(spec, e) == ResolveAt(cells, maxX, maxY, e) && RecordedValue(vals, e) == ValueAt(cells, maxX, maxY, e);
    }
  }

  class Graph {
    const triples: map<Pos, Entry>
    /** What each cell holds. */
    const cells: map<Pos, Content>
    /** The item that stands for "no neighbour". */
    const dummy: Item
    const maxX: int
    const maxY: int
    /** Resolve and ValueAt of every cell. */
    ghost const spec: map<Pos, Res<Fields>>
    ghost const vals: map<Pos, Res<Option<Value>>>
    /** The items of the cells and the dummy. */
    ghost const itemSet: set<object>

    /** Builds the graph of the items parse created; the reference fields
        and values of the cells are recorded with it. */
    constructor (triples: map<Pos, Entry>, cells: map<Pos, Content>, dummy: Item, maxX: int, maxY: int,
                 ghost spec: map<Pos, Res<Fields>>, ghost vals: map<Pos, Res<Option<Value>>>,
                 ghost itemSet: set<object>)
      requires dummy in itemSet && forall p :: p in triples ==> triples[p].item in itemSet
      requires triples.Keys == spec.Keys && triples.Keys == vals.Keys
      requires dummy.content == DummyItem && dummy.Initial()
      requires forall p :: p in triples ==>
        && triples[p].item.Initial() && triples[p].item.cell == Some(p) && !triples[p].item.content.DummyItem?
      requires forall p :: p in triples ==> Leads(triples, maxX, maxY, p) && Follows(triples, spec, vals, p)
      ensures Wf()
      ensures this.triples == triples && this.cells == cells && this.dummy == dummy
      ensures this.maxX == maxX && this.maxY == maxY
      ensures this.spec == spec && this.vals == vals
      ensures this.itemSet == itemSet
    {
      this.triples := triples;
      this.cells := cells;
      this.dummy := dummy;
      this.maxX := maxX;
      this.maxY := maxY;
      this.spec := spec;
      this.vals := vals;
      this.itemSet := itemSet;
      new;
      assert forall p :: p in triples ==> Linked(p) && Steps(p);
    }

    /** A graph whose items are all as parse creates them is consistent. */
    lemma Untouched()
      requires Wf() && dummy.Initial()
      requires forall p :: p in triples ==> triples[p].item.Initial()
      ensures Consistent() && Initial()
    {
      forall p | p in triples
        ensures Agrees(p)
      {
      }
    }

    function Lookup(pos: Option<Pos>): Item
      requires pos.Some? ==> pos.value in triples
    {
      if pos.None? then dummy else triples[pos.value].item
    }

    /** The recorded fields of a connection target. */
    ghost function SpecAt(pos: Option<Pos>): Res<Fields> { RecordedFields(spec, pos) }

    /** The recorded value of a connection target. */
    ghost function ValAt(pos: Option<Pos>): Res<Option<Value>> { RecordedValue(vals, pos) }

    ghost predicate Linked(p: Pos) { Leads(triples, maxX, maxY, p) }

    ghost predicate Steps(p: Pos) { Follows(triples, spec, vals, p) }

    /** The shape parse builds: one distinct item per cell, none of them the
        dummy, connections towards the far corner, and recorded fields and
        values that follow the steps of fill and evaluate. */
    ghost predicate Wf() {
      && dummy.content == DummyItem
      && dummy in itemSet
      && triples.Keys == spec.Keys && triples.Keys == vals.Keys
      && (forall p :: p in triples ==>
            triples[p].item in itemSet && triples[p].item.cell == Some(p) && !triples[p].item.content.DummyItem?)
      && (forall p {:trigger Linked(p)} :: p in triples ==> Linked(p))
      && (forall p {:trigger Steps(p)} :: p in triples ==> Steps(p))
    }

    /** The item at p agrees with the recorded semantics: once filled its
        fields are the recorded ones, once evaluated its value is what its
        callable gives on its arguments; data and control items never carry
        a callable and are never marked evaluated. */
    ghost predicate Agrees(p: Pos)
      requires p in triples
      reads triples[p].item
    {
      var it := triples[p].item;
      && (it.filled ==> SpecAt(Some(p)) == Ok(Fields(it.func, it.lArg, it.rArg)))
      && (it.content.DataItem? ==>
            it.func == None && it.lArg == None && !it.evald && (it.filled ==> it.value == Some(it.content.v)))
      && (it.content.ControlItem? ==>
            it.func == None && it.lArg == None && it.rArg == None && it.value == None && !it.evald)
      && (it.evald ==> it.filled && Ok(it.value) == Invoke(it.func, it.lArg, it.rArg))
    }

    ghost predicate Consistent()
      reads itemSet
    {
      && Wf()
      && !dummy.filled && !dummy.evald
      && dummy.value == None && dummy.func == None && dummy.lArg == None && dummy.rArg == None
      && (forall p :: p in triples ==> Agrees(p))
    }

    /** No item has been filled, evaluated or given a field yet. */
    ghost predicate Initial()
      reads itemSet
      requires Wf()
    {
      forall p :: p in triples ==> triples[p].item.Initial()
    }

    /** The graph parse builds for prog: its cells and bounds, the
        connections the searches find, and the reference fields and values
        of the cells. */
    ghost predicate Builds(prog: Program) {
      && cells == prog.cells && maxX == prog.maxX && maxY == prog.maxY
      && Placed(cells, maxX, maxY)
      && triples.Keys == cells.Keys && spec.Keys == cells.Keys && vals.Keys == cells.Keys
      && (forall p :: p in triples ==>
            triples[p].south == SouthOf(cells, maxX, maxY, p) && triples[p].east == EastOf(cells, maxX, maxY, p))
      && (forall p :: p in cells ==> spec[p] == Resolve(cells, maxX, maxY, p))
      && (forall p :: p in cells ==> vals[p] == ValueAt(cells, maxX, maxY, Some(p)))
    }

    /** Evaluates a filled item (or the dummy); the result is the recorded
        value of its cell. */
    method EvaluateAt(pos: Option<Pos>) returns (r: Res<Option<Value>>)
      requires Consistent()
      requires pos.Some? ==> pos.value in triples && triples[pos.value].item.filled
      modifies Lookup(pos)
      ensures Consistent()
      ensures r == ValAt(pos)
      ensures Lookup(pos).filled == old(Lookup(pos).filled)
      ensures Lookup(pos).func == old(Lookup(pos).func)
      ensures Lookup(pos).lArg == old(Lookup(pos).lArg) && Lookup(pos).rArg == old(Lookup(pos).rArg)
    {
      var item := Lookup(pos);
      if pos.Some? {
        assert Agrees(pos.value) && Steps(pos.value);
      }
      r := item.Evaluate();
      if pos.Some? {
        var p := pos.value;
        assert Agrees(p);
        forall q | q in triples && q != p
          ensures Agrees(q)
        {
          assert triples[q].item != item;
        }
      }
    }

    /** The item fill returned for a connection target carries the target's
        recorded fields. */
    lemma NeighbourFields(pos: Option<Pos>, n: Item)
      requires Consistent()
      requires pos.Some? ==> pos.value in triples && triples[pos.value].item.filled
      requires n == Lookup(pos)
      ensures SpecAt(pos) == Ok(Fields(n.func, n.lArg, n.rArg))
    {
      if pos.Some? {
        assert Agrees(pos.value);
      }
    }

    /** Resolves the item at pos, children first, and returns it. A filled
        item, or the dummy, is returned untouched; any other item is filled
        with its recorded fields, and the fill fails exactly when those are
        a failure, with the same failure. */
    method Fill(pos: Option<Pos>) returns (r: Res<Item>)
      requires Consistent()
      requires pos.Some? ==> pos.value in triples
      modifies itemSet
      decreases Measure(maxX, maxY, pos), 1
      ensures Consistent()
      ensures pos.None? || old(Lookup(pos).filled) ==> r == Ok(Lookup(pos)) && unchanged(itemSet)
      ensures match SpecAt(pos)
        case Ok(_) => r == Ok(Lookup(pos)) && (pos.Some? ==> Lookup(pos).filled)
        case Fail(w) => r == Fail(w)
      ensures forall q :: q in triples && old(triples[q].item.filled) ==> triples[q].item.filled
    {
      var item := Lookup(pos);
      if item.filled || item.Type() == Dummy {
        if pos.Some? {
          assert Agrees(pos.value);
        }
        return Ok(item);
      }
      r := FillItem(pos.value);
    }

    /** Fill of an item that is not filled yet: a data item takes its
        literal, any other item fills its south neighbour, then its east
        neighbour, then itself. */
    method FillItem(p: Pos) returns (r: Res<Item>)
      requires Consistent() && p in triples
      modifies itemSet
      decreases Measure(maxX, maxY, Some(p)), 0
      ensures Consistent()
      ensures match spec[p]
        case Ok(_) => r == Ok(triples[p].item) && triples[p].item.filled
        case Fail(w) => r == Fail(w)
      ensures forall q :: q in triples && old(triples[q].item.filled) ==> triples[q].item.filled
    {
      var item := triples[p].item;
      assert Steps(p) && Linked(p);
      if item.Type() == Data {
        StoreData(p);
        return Ok(item);
      }
      var entry := triples[p];
      var l :- Fill(entry.south.pos);
      var rn :- Fill(entry.east.pos);
      r := Complete(p, l, rn);
    }
    /** What fill of a control, function or operator item starts from: its
        neighbours are the filled items at its connections. */
    ghost predicate ReadyAt(p: Pos, l: Item, rn: Item)
      reads itemSet
    {
      && Consistent() && p in triples
      && (var c := triples[p].item.content; c.FunctionItem? || c.OperatorItem? || c.ControlItem?)
      && (var s := triples[p].south.pos;
          (s.Some? ==> s.value in triples && triples[s.value].item.filled) && l == Lookup(s))
      && (var e := triples[p].east.pos;
          (e.Some? ==> e.value in triples && triples[e.value].item.filled) && rn == Lookup(e))
    }

    /** Fill of a control, function or operator item once both neighbours are
        filled. */
    method Complete(p: Pos, l: Item, rn: Item) returns (r: Res<Item>)
      requires ReadyAt(p, l, rn)
      modifies itemSet
      ensures Consistent()
      ensures match spec[p]
        case Ok(_) => r == Ok(triples[p].item) && triples[p].item.filled
        case Fail(w) => r == Fail(w)
      ensures forall q :: q in triples && old(triples[q].item.filled) ==> triples[q].item.filled
    {
      var item := triples[p].item;
      if item.Type() == Control {
        assert Steps(p);
        NeighbourFields(triples[p].south.pos, l);
        NeighbourFields(triples[p].east.pos, rn);
        StoreControl(p);
        r := Ok(item);
      } else if item.Type() == Function {
        r := FillFunction(p, l, rn);
      } else {
        r := FillOperator(p, l, rn);
      }
    }

    /** Stores resolved fields in a function or operator item and marks it
        filled. */
    method Store(p: Pos, f: Fields)
      requires Consistent() && p in triples
      requires triples[p].item.content.FunctionItem? || triples[p].item.content.OperatorItem?
      requires spec[p] == Ok(f)
      modifies triples[p].item
      ensures Consistent()
      ensures triples[p].item.filled
      ensures Fields(triples[p].item.func, triples[p].item.lArg, triples[p].item.rArg) == f
    {
      var item := triples[p].item;
      item.func, item.lArg, item.rArg := f.func, f.lArg, f.rArg;
      item.filled := true;
      assert Agrees(p);
      forall q | q in triples && q != p
        ensures Agrees(q)
      {
        assert triples[q].item != item;
      }
    }

    /** Fill for a data item: its value and its right argument are its literal. */
    method StoreData(p: Pos)
      requires Consistent() && p in triples
      requires triples[p].item.content.DataItem?
      requires spec[p] == Ok(Fields(None, None, Some(triples[p].item.content.v)))
      modifies triples[p].item
      ensures Consistent()
      ensures triples[p].item.filled && !triples[p].item.evald
      ensures triples[p].item.value == triples[p].item.rArg == Some(triples[p].item.content.v)
    {
      var item := triples[p].item;
      item.value := Some(item.content.v);
      item.rArg := Some(item.content.v);
      item.filled := true;
      assert Agrees(p);
      forall q | q in triples && q != p
        ensures Agrees(q)
      {
        assert triples[q].item != item;
      }
    }

    /** Fill for a control item once its neighbours resolved: it is only
        marked filled. */
    method StoreControl(p: Pos)
      requires Consistent() && p in triples
      requires triples[p].item.content.ControlItem?
      requires spec[p] == Ok(Blank)
      modifies triples[p].item
      ensures Consistent()
      ensures triples[p].item.filled
    {
      var item := triples[p].item;
      item.filled := true;
      assert Agrees(p);
      forall q | q in triples && q != p
        ensures Agrees(q)
      {
        assert triples[q].item != item;
      }
    }

    /** A function item's argument from one neighbour: the neighbour is
        evaluated when the connection lets values through. */
    method ArgumentAt(c: Connection) returns (r: Res<Option<Value>>)
      requires Consistent()
      requires c.pos.Some? ==> c.pos.value in triples && triples[c.pos.value].item.filled
      modifies Lookup(c.pos)
      ensures Consistent()
      ensures r == ArgFrom(c, ValAt(c.pos))
      ensures Lookup(c.pos).filled == old(Lookup(c.pos).filled)
      ensures forall q :: q in triples && old(triples[q].item.filled) ==> triples[q].item.filled
    {
      if c.hasValue {
        r := EvaluateAt(c.pos);
      } else {
        r := Ok(None);
      }
    }

    /** An operator's operand from one neighbour n: its callable when the
        connection lets callables through and it has one, else its value when
        the connection lets values through. */
    method OperandAt(c: Connection, n: Item) returns (r: Res<Option<Operand>>)
      requires Consistent()
      requires c.pos.Some? ==> c.pos.value in triples && triples[c.pos.value].item.filled
      requires n == Lookup(c.pos)
      modifies n
      ensures Consistent()
      ensures r == OperandFrom(c, Fields(n.func, n.lArg, n.rArg), ValAt(c.pos))
      ensures n.filled == old(n.filled) && n.func == old(n.func)
      ensures n.lArg == old(n.lArg) && n.rArg == old(n.rArg)
    {
      if c.hasFunc && n.func.Some? {
        r := Ok(Some(Fun(n.func.value)));
      } else if c.hasValue {
        var v :- EvaluateAt(c.pos);
        r := Ok(if v.Some? then Some(Val(v.value)) else None);
      } else {
        r := Ok(None);
      }
    }

    /** Fill for a function item: the callable is its own, the arguments are
        the values of the neighbours whose connections let values through.
        Both arguments are computed before any field is stored; nothing reads
        the item in between, so the order of the stores is not observable. */
    method FillFunction(p: Pos, l: Item, rn: Item) returns (r: Res<Item>)
      requires ReadyAt(p, l, rn) && triples[p].item.content.FunctionItem?
      modifies itemSet
      ensures Consistent()
      ensures match spec[p]
        case Ok(_) => r == Ok(triples[p].item) && triples[p].item.filled
        case Fail(w) => r == Fail(w)
      ensures forall q :: q in triples && old(triples[q].item.filled) ==> triples[q].item.filled
    {
      var item := triples[p].item;
      var entry := triples[p];
      assert Steps(p);
      NeighbourFields(entry.south.pos, l);
      NeighbourFields(entry.east.pos, rn);
      var lArg :- ArgumentAt(entry.south);
      var rArg :- ArgumentAt(entry.east);
      Store(p, Fields(Some(item.content.f), lArg, rArg));
      r := Ok(item);
    }

    /** An operator item's two operands, south first; the neighbours keep
        their fields and stay filled. */
    method OperandsAt(p: Pos, l: Item, rn: Item) returns (r: Res<(Option<Operand>, Option<Operand>)>)
      requires ReadyAt(p, l, rn)
      modifies l, rn
      ensures ReadyAt(p, l, rn)
      ensures l.func == old(l.func) && l.lArg == old(l.lArg) && l.rArg == old(l.rArg) && l.filled == old(l.filled)
      ensures rn.func == old(rn.func) && rn.lArg == old(rn.lArg) && rn.rArg == old(rn.rArg) && rn.filled == old(rn.filled)
      ensures forall q :: q in triples && old(triples[q].item.filled) ==> triples[q].item.filled
      ensures var sc := triples[p].south;
        var ec := triples[p].east;
        r == (var lIn :- OperandFrom(sc, Fields(l.func, l.lArg, l.rArg), ValAt(sc.pos));
              var rIn :- OperandFrom(ec, Fields(rn.func, rn.lArg, rn.rArg), ValAt(ec.pos));
              Ok((lIn, rIn)))
    {
      var lIn :- OperandAt(triples[p].south, l);
      var rIn :- OperandAt(triples[p].east, rn);
      r := Ok((lIn, rIn));
    }

    /** Fill for an operator item: the operator builds the callable from the
        two operands; the arguments are the east neighbour's when the east
        connection passes them and one is present, else the south
        neighbour's under the south connection's mask. */
    method FillOperator(p: Pos, l: Item, rn: Item) returns (r: Res<Item>)
      requires ReadyAt(p, l, rn) && triples[p].item.content.OperatorItem?
      modifies itemSet
      ensures Consistent()
      ensures match spec[p]
        case Ok(_) => r == Ok(triples[p].item) && triples[p].item.filled
        case Fail(w) => r == Fail(w)
      ensures forall q :: q in triples && old(triples[q].item.filled) ==> triples[q].item.filled
    {
      var item := triples[p].item;
      var entry := triples[p];
      assert Steps(p);
      NeighbourFields(entry.south.pos, l);
      NeighbourFields(entry.east.pos, rn);
      var ins :- OperandsAt(p, l, rn);
      var func :- item.content.op(ins.0, ins.1);
      var rlArg := if entry.east.hasArgs then rn.lArg else None;
      var rrArg := if entry.east.hasArgs then rn.rArg else None;
      var lArg, rArg;
      if rlArg.None? && rrArg.None? {
        lArg := if entry.south.hasArgs then l.lArg else None;
        rArg := if entry.south.hasArgs then l.rArg else None;
      } else {
        lArg, rArg := rlArg, rrArg;
      }
      Store(p, Fields(func, lArg, rArg));
      r := Ok(item);
    }
  }

  /** One fresh, distinct item per cell, holding the cell's content. */
  method NewItems(cells: map<Pos, Content>) returns (items: map<Pos, Item>, ghost made: set<object>)
    ensures items.Keys == cells.Keys && fresh(made) && Made(items, cells, made)
  {
    items, made := map[], {};
    var todo := cells.Keys;
    while todo != {}
      invariant todo <= cells.Keys && items.Keys == cells.Keys - todo
      invariant fresh(made) && Made(items, cells, made)
      decreases |todo|
    {
      var p :| p in todo;
      var item := new Item(cells[p], Some(p));
      items, made := items[p := item], made + {item};
      todo := todo - {p};
    }
  }

  /** Every item is one of those made, as the item constructor leaves it, for
      the content of its cell. */
  ghost predicate Made(items: map<Pos, Item>, cells: map<Pos, Content>, made: set<object>)
    reads made
  {
    forall p :: p in items ==>
      && items[p] in made && items[p].Initial()
      && p in cells && items[p].content == cells[p] && items[p].cell == Some(p)
  }

  /** The connection table: each cell's item with what the south search from
      the cell below and the east search from the cell to the right find. */
  method Connect(cells: map<Pos, Content>, maxX: int, maxY: int, items: map<Pos, Item>)
    returns (triples: map<Pos, Entry>)
    requires items.Keys == cells.Keys
    ensures triples.Keys == cells.Keys
    ensures forall p :: p in triples ==>
      triples[p] == Entry(items[p], SouthOf(cells, maxX, maxY, p), EastOf(cells, maxX, maxY, p))
  {
    triples := map[];
    var todo := cells.Keys;
    while todo != {}
      invariant todo <= cells.Keys && triples.Keys == cells.Keys - todo
      invariant forall p :: p in triples ==>
        triples[p] == Entry(items[p], SouthOf(cells, maxX, maxY, p), EastOf(cells, maxX, maxY, p))
      decreases |todo|
    {
      var p :| p in todo;
      var south := FindItem(cells, maxX, maxY, p.0, p.1 + 1, South);
      var east := FindItem(cells, maxX, maxY, p.0 + 1, p.1, East);
      assert south == SouthOf(cells, maxX, maxY, p) && east == EastOf(cells, maxX, maxY, p);
      triples := triples[p := Entry(items[p], south, east)];
      todo := todo - {p};
    }
  }

  /** The items and connections of a tokenized program: one fresh item per
      cell, connected to what the south and east searches from the
      neighbouring cells find, and a fresh dummy. */
  method Link(cells: map<Pos, Content>, maxX: int, maxY: int)
    returns (triples: map<Pos, Entry>, dummy: Item, ghost itemSet: set<object>)
    ensures triples.Keys == cells.Keys && fresh(itemSet)
    ensures dummy in itemSet && dummy.content == DummyItem && dummy.Initial()
    ensures forall p :: p in triples ==>
      && triples[p].item in itemSet && triples[p].item.Initial()
      && triples[p].item.content == cells[p] && triples[p].item.cell == Some(p)
      && triples[p].south == SouthOf(cells, maxX, maxY, p) && triples[p].east == EastOf(cells, maxX, maxY, p)
  {
    var items, made := NewItems(cells);
    triples := Connect(cells, maxX, maxY, items);
    dummy := new Item(DummyItem, None);
    itemSet := made + {dummy};
  }

  /** The graph of a tokenized program, with the reference fields and
      values of its cells. */
  method Build(cells: map<Pos, Content>, maxX: int, maxY: int) returns (g: Graph)
    requires Placed(cells, maxX, maxY)
    requires forall p :: p in cells ==> !cells[p].DummyItem?
    ensures fresh(g) && fresh(g.itemSet) && g.Consistent() && g.Initial()
    ensures g.Builds(Program(cells, maxX, maxY))
  {
    var triples, dummy, itemSet := Link(cells, maxX, maxY);
    ghost var spec, vals := References(cells, maxX, maxY);
    Recorded(triples, cells, maxX, maxY, spec, vals);
    g := new Graph(triples, cells, dummy, maxX, maxY, spec, vals, itemSet);
    g.Untouched();
  }

  /** Tokenizes the grid and builds its graph. Parse fails exactly when
      preparing the program does (input runs out, or the grid is empty),
      with the same failure. */
  method Parse(grid: seq<string>, vocab: Vocab, inputs: seq<string>, parseValue: string -> Value)
    returns (r: Res<Graph>)
    ensures var prog := Prepare(grid, vocab, inputs, parseValue);
      && (prog.Fail? ==> r == Fail(prog.why))
      && (prog.Ok? ==> r.Ok? && r.val.Builds(prog.val))
    ensures r.Ok? ==> fresh(r.val) && fresh(r.val.itemSet) && r.val.Consistent() && r.val.Initial()
  {
    var scanned :- Tokenize(grid, vocab, inputs, parseValue);
    if grid == [] {
      return Fail(Raised("max() arg is an empty sequence"));
    }
    var maxX := MaxWidth(grid);
    var maxY := |grid|;
    assert Prepare(grid, vocab, inputs, parseValue) == Ok(Program(scanned.cells, maxX, maxY));
    var g := Build(scanned.cells, maxX, maxY);
    r := Ok(g);
  }

  /** Runs a program: parse, fill from the top-left corner, and evaluate
      the corner. The outcome is the reference interpretation of the grid. */
  method Interpret(grid: seq<string>, vocab: Vocab, inputs: seq<string>, parseValue: string -> Value)
    returns (r: Res<Option<Value>>)
    ensures r == Interpretation(grid, vocab, inputs, parseValue)
  {
    var g :- Parse(grid, vocab, inputs, parseValue);
    if (0, 0) !in g.triples {
      return Fail(Raised("KeyError: (0, 0)"));
    }
    var corner :- g.Fill(Some((0, 0)));
    r := g.EvaluateAt(Some((0, 0)));
  }
}

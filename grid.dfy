/** Turning the program grid into cells: the row tokenizer, and the
    directional search that connects a cell to its south and east operands. */
module Grid {
  import opened Values

  type Pos = (int, int)

  datatype Dir = East | South

  datatype ItemType = Data | Function | Operator | Control | Dummy

  /** What a cell holds; the item's kind is determined by it. */
  datatype Content =
    | DataItem(v: Value)
    | FunctionItem(f: Fn)
    | OperatorItem(op: Oper)
    | ControlItem(glyph: char)
    | DummyItem
  {
    function Type(): ItemType {
      match this
      case DataItem(_) => Data
      case FunctionItem(_) => Function
      case OperatorItem(_) => Operator
      case ControlItem(_) => Control
      case DummyItem => Dummy
    }
  }

  /** The registered glyphs: each function glyph maps to its variadic
      callable, each operator glyph to its variadic operator. */
  datatype Vocab = Vocab(funcs: map<char, Fn>, opers: map<char, Oper>)

  /** The result of one directional search: the target cell, or none, and
      whether the target may give its value, its callable and its arguments. */
  datatype Connection = Connection(pos: Option<Pos>, hasValue: bool, hasFunc: bool, hasArgs: bool)

  const NoConnection := Connection(None, false, false, false)

  const ControlGlyphs: set<char> := {'B', 'V', 'F', 'A', 'E', 'S', 'X'}

  // ---------------------------------------------------------------------
  // Connection search

  function Advance(x: int, y: int, dir: Dir): (int, int) {
    if dir == East then (x + 1, y) else (x, y + 1)
  }

  /** The search from (x, y) in direction dir with the current masks, as a
      function: control cells change the state, `B` aborts, and the first
      data, function or operator cell is the target. */
  function Scan(cells: map<Pos, Content>, maxX: int, maxY: int,
                x: int, y: int, dir: Dir, hv: bool, hf: bool, ha: bool): Connection
    decreases maxX - x + maxY - y
  {
    if !(x <= maxX && y <= maxY) then NoConnection
    else if (x, y) in cells && cells[(x, y)].DataItem? then
      Connection(Some((x, y)), hv, false, ha)
    else if (x, y) in cells && (cells[(x, y)].FunctionItem? || cells[(x, y)].OperatorItem?) then
      Connection(Some((x, y)), hv, hf, ha)
    else if (x, y) in cells && cells[(x, y)] == ControlItem('B') then
      NoConnection
    else
      var c := if (x, y) in cells && cells[(x, y)].ControlItem? then cells[(x, y)].glyph else ' ';
      var dir' :=
        if c == 'X' then (if dir == East then South else East)
        else if c == 'S' then South
        else if c == 'E' then East
        else dir;
      var next := Advance(x, y, dir');
      Scan(cells, maxX, maxY, next.0, next.1, dir',
           hv && c != 'V', hf && c != 'F', ha && c != 'A')
  }

  /** The search as the source runs it: a loop over the position, the
      direction and the three masks. */
  method FindItem(cells: map<Pos, Content>, maxX: int, maxY: int, x0: int, y0: int, dir0: Dir)
    returns (c: Connection)
    ensures c == Scan(cells, maxX, maxY, x0, y0, dir0, true, true, true)
    ensures c.pos.Some? ==> x0 <= c.pos.value.0 <= maxX && y0 <= c.pos.value.1 <= maxY
    ensures c.pos.None? ==> !c.hasValue && !c.hasFunc && !c.hasArgs
  {
    var x, y, dir := x0, y0, dir0;
    var hasValue, hasFunc, hasArgs := true, true, true;
    while x <= maxX && y <= maxY
      invariant x0 <= x && y0 <= y
      invariant Scan(cells, maxX, maxY, x, y, dir, hasValue, hasFunc, hasArgs)
             == Scan(cells, maxX, maxY, x0, y0, dir0, true, true, true)
      decreases maxX - x + maxY - y
    {
      if (x, y) in cells {
        var item := cells[(x, y)];
        match item {
          case DataItem(_) =>
            return Connection(Some((x, y)), hasValue, false, hasArgs);
          case FunctionItem(_) =>
            return Connection(Some((x, y)), hasValue, hasFunc, hasArgs);
          case OperatorItem(_) =>
            return Connection(Some((x, y)), hasValue, hasFunc, hasArgs);
          case ControlItem(ch) =>
            if ch == 'B' {
              return NoConnection;
            } else if ch == 'V' {
              hasValue := false;
            } else if ch == 'F' {
              hasFunc := false;
            } else if ch == 'A' {
              hasArgs := false;
            } else if ch == 'X' {
              dir := if dir == East then South else East;
            } else if ch == 'S' {
              dir := South;
            } else if ch == 'E' {
              dir := East;
            }
          case DummyItem =>
        }
      }
      if dir == East {
        x := x + 1;
      } else {
        y := y + 1;
      }
    }
    return NoConnection;
  }

  /** A target found by the search lies at or beyond the start in both
      coordinates, inside the bounds, and is a data, function or operator cell. */
  lemma {:induction false} ScanTarget(cells: map<Pos, Content>, maxX: int, maxY: int,
                                      x: int, y: int, dir: Dir, hv: bool, hf: bool, ha: bool)
    ensures var c := Scan(cells, maxX, maxY, x, y, dir, hv, hf, ha);
      c.pos.Some? ==>
        && x <= c.pos.value.0 <= maxX && y <= c.pos.value.1 <= maxY
        && c.pos.value in cells
        && (cells[c.pos.value].DataItem? || cells[c.pos.value].FunctionItem? || cells[c.pos.value].OperatorItem?)
    decreases maxX - x + maxY - y
  {
    if x <= maxX && y <= maxY {
      var c := if (x, y) in cells && cells[(x, y)].ControlItem? then cells[(x, y)].glyph else ' ';
      var dir' :=
        if c == 'X' then (if dir == East then South else East)
        else if c == 'S' then South
        else if c == 'E' then East
        else dir;
      var next := Advance(x, y, dir');
      ScanTarget(cells, maxX, maxY, next.0, next.1, dir', hv && c != 'V', hf && c != 'F', ha && c != 'A');
    }
  }

  /** The masks only clear along a search: each flag of the result implies
      the flag the search started with; a search that finds nothing (a `B`
      cell, or the boundary) clears all three; a data target never offers a
      callable. */
  lemma {:induction false} ScanMasks(cells: map<Pos, Content>, maxX: int, maxY: int,
                                     x: int, y: int, dir: Dir, hv: bool, hf: bool, ha: bool)
    ensures var c := Scan(cells, maxX, maxY, x, y, dir, hv, hf, ha);
      && (c.hasValue ==> hv) && (c.hasFunc ==> hf) && (c.hasArgs ==> ha)
      && (c.pos.None? ==> !c.hasValue && !c.hasFunc && !c.hasArgs)
      && (c.pos.Some? && c.pos.value in cells && cells[c.pos.value].DataItem? ==> !c.hasFunc)
    decreases maxX - x + maxY - y
  {
    if x <= maxX && y <= maxY {
      var c := if (x, y) in cells && cells[(x, y)].ControlItem? then cells[(x, y)].glyph else ' ';
      var dir' :=
        if c == 'X' then (if dir == East then South else East)
        else if c == 'S' then South
        else if c == 'E' then East
        else dir;
      var next := Advance(x, y, dir');
      ScanMasks(cells, maxX, maxY, next.0, next.1, dir', hv && c != 'V', hf && c != 'F', ha && c != 'A');
    }
  }

  /** Crossing a `V` cell and then reaching a data cell gives a connection
      that may not take the value; crossing `B` gives no connection at all,
      whatever lies beyond it. */
  lemma BlockedScans(cells: map<Pos, Content>, maxX: int, maxY: int, x: int, y: int)
    requires 0 <= x <= maxX && 0 <= y < maxY
    requires (x, y) in cells && (x, y + 1) in cells
    ensures cells[(x, y)] == ControlItem('V') && cells[(x, y + 1)].DataItem? ==>
      Scan(cells, maxX, maxY, x, y, South, true, true, true) == Connection(Some((x, y + 1)), false, false, true)
    ensures cells[(x, y)] == ControlItem('B') ==>
      Scan(cells, maxX, maxY, x, y, South, true, true, true) == NoConnection
  {
  }

  // ---------------------------------------------------------------------
  // Tokenizer

  predicate IsDigit(c: char) { '0' <= c <= '9' }

  /** The column just past the run of digits starting at column i. */
  function DigitEnd(row: string, i: nat): (e: nat)
    requires i <= |row|
    ensures i <= e <= |row|
    ensures forall k :: i <= k < e ==> IsDigit(row[k])
    ensures e == |row| || !IsDigit(row[e])
    decreases |row| - i
  {
    if i < |row| && IsDigit(row[i]) then DigitEnd(row, i + 1) else i
  }

  /** A run of digits read as a decimal integer. */
  function Decimal(s: string): nat
    requires forall k :: 0 <= k < |s| ==> IsDigit(s[k])
  {
    if s == [] then 0 else Decimal(s[..|s| - 1]) * 10 + DigitValue(s[|s| - 1])
  }

  function DigitValue(c: char): nat
    requires IsDigit(c)
  {
    assert '0' as int <= c as int;
    c as int - '0' as int
  }

  /** The characters of a string literal whose body starts at column i, and
      the column where the body stops (the closing quote, or past the row):
      `\n` is a newline, `\c` is c, and a `\` in the last column is a newline. */
  function StringBody(row: string, i: nat): (r: (string, nat))
    ensures i <= r.1
    decreases |row| - i
  {
    if i >= |row| || row[i] == '"' then ([], i)
    else if row[i] == '\\' then
      var c := if i == |row| - 1 then '\n' else if row[i + 1] == 'n' then '\n' else row[i + 1];
      var rest := StringBody(row, i + 2);
      ([c] + rest.0, rest.1)
    else
      var rest := StringBody(row, i + 1);
      ([row[i]] + rest.0, rest.1)
  }

  /** One character of a string literal's body: c, read at column i, is
      followed by the rest of the body from column j. */
  lemma StringBodyStep(row: string, i: nat, c: char, j: nat)
    requires i < |row| && row[i] != '"'
    requires row[i] == '\\' ==> j == i + 2 && c == (if i == |row| - 1 || row[i + 1] == 'n' then '\n' else row[i + 1])
    requires row[i] != '\\' ==> j == i + 1 && c == row[i]
    ensures StringBody(row, i) == ([c] + StringBody(row, j).0, StringBody(row, j).1)
  {
  }

  /** The cells of one row and the input lines left over. */
  datatype Scanned = Scanned(cells: map<Pos, Content>, rest: seq<string>)

  /** Prefixing the cells found so far to a later successful scan. */
  function After(m: map<Pos, Content>, r: Res<Scanned>): Res<Scanned> {
    match r
    case Ok(s) => Ok(Scanned(m + s.cells, s.rest))
    case Fail(w) => Fail(w)
  }

  /** One input line, as the input glyphs consume it; an exhausted input raises. */
  function ReadLine(inputs: seq<string>): (r: Res<(string, seq<string>)>)
    ensures r.Ok? <==> inputs != []
    ensures r.Ok? ==> r.val == (inputs[0], inputs[1..])
  {
    if inputs == [] then Fail(Raised("EOF when reading a line")) else Ok((inputs[0], inputs[1..]))
  }

  /** The tokens of row y from column x on. `i` and `I` consume one input
      line each, in order; parseValue stands for the external literal parser. */
  function ScanRow(row: string, y: int, x: nat, vocab: Vocab, inputs: seq<string>,
                   parseValue: string -> Value): Res<Scanned>
    decreases |row| - x
  {
    if x >= |row| then Ok(Scanned(map[], inputs))
    else
      var ch := row[x];
      if ch == '\'' then
        var c := if x == |row| - 1 then '\n' else row[x + 1];
        After(map[(x, y) := DataItem(CharAtom(c))], ScanRow(row, y, x + 2, vocab, inputs, parseValue))
      else if ch == '"' then
        var body := StringBody(row, x + 1);
        After(map[(x, y) := DataItem(CharList(body.0))], ScanRow(row, y, body.1 + 1, vocab, inputs, parseValue))
      else if IsDigit(ch) then
        var e := DigitEnd(row, x);
        After(map[(x, y) := DataItem(NumAtom(Decimal(row[x..e])))], ScanRow(row, y, e, vocab, inputs, parseValue))
      else if ch == 'i' || ch == 'I' then
        match ReadLine(inputs)
        case Fail(w) => Fail(w)
        case Ok(line) =>
          var v := if ch == 'i' then parseValue(line.0) else CharList(line.0);
          After(map[(x, y) := DataItem(v)], ScanRow(row, y, x + 1, vocab, line.1, parseValue))
      else if ch in vocab.funcs then
        After(map[(x, y) := FunctionItem(vocab.funcs[ch])], ScanRow(row, y, x + 1, vocab, inputs, parseValue))
      else if ch in vocab.opers then
        After(map[(x, y) := OperatorItem(vocab.opers[ch])], ScanRow(row, y, x + 1, vocab, inputs, parseValue))
      else if ch in ControlGlyphs then
        After(map[(x, y) := ControlItem(ch)], ScanRow(row, y, x + 1, vocab, inputs, parseValue))
      else
        ScanRow(row, y, x + 1, vocab, inputs, parseValue)
  }

  /** The tokens of rows y and below. */
  function ScanGrid(grid: seq<string>, y: nat, vocab: Vocab, inputs: seq<string>,
                    parseValue: string -> Value): Res<Scanned>
    requires y <= |grid|
    decreases |grid| - y
  {
    if y == |grid| then Ok(Scanned(map[], inputs))
    else
      match ScanRow(grid[y], y, 0, vocab, inputs, parseValue)
      case Fail(w) => Fail(w)
      case Ok(r) => After(r.cells, ScanGrid(grid, y + 1, vocab, r.rest, parseValue))
  }

  /** The cells of row y from column x on: in that row, at a column of it
      no smaller than x, and none of them the dummy. */
  ghost predicate InRow(cells: map<Pos, Content>, row: string, y: int, x: int) {
    forall p :: p in cells ==> p.1 == y && x <= p.0 < |row| && !cells[p].DummyItem?
  }

  /** A token at column x in front of a scan of the columns after it. */
  lemma AfterInRow(row: string, y: int, x: int, x': int, c: Content, r: Res<Scanned>)
    requires x < x' && x < |row| && !c.DummyItem?
    requires r.Ok? ==> InRow(r.val.cells, row, y, x')
    ensures var a := After(map[(x, y) := c], r); a.Ok? ==> InRow(a.val.cells, row, y, x)
  {
  }

  /** Every token of a row scanned from column x on sits in that row, at or
      after column x. */
  lemma {:induction false} ScanRowCells(row: string, y: int, x: nat, vocab: Vocab, inputs: seq<string>,
                                        parseValue: string -> Value)
    ensures var r := ScanRow(row, y, x, vocab, inputs, parseValue);
      r.Ok? ==> InRow(r.val.cells, row, y, x)
    decreases |row| - x
  {
    if x < |row| {
      var ch := row[x];
      if ch == '\'' {
        ScanRowCells(row, y, x + 2, vocab, inputs, parseValue);
        var c := if x == |row| - 1 then '\n' else row[x + 1];
        AfterInRow(row, y, x, x + 2, DataItem(CharAtom(c)), ScanRow(row, y, x + 2, vocab, inputs, parseValue));
        assert ScanRow(row, y, x, vocab, inputs, parseValue) == After(map[(x, y) := DataItem(CharAtom(c))], ScanRow(row, y, x + 2, vocab, inputs, parseValue));
      } else if ch == '"' {
        var body := StringBody(row, x + 1);
        ScanRowCells(row, y, body.1 + 1, vocab, inputs, parseValue);
        AfterInRow(row, y, x, body.1 + 1, DataItem(CharList(body.0)), ScanRow(row, y, body.1 + 1, vocab, inputs, parseValue));
        assert ScanRow(row, y, x, vocab, inputs, parseValue) == After(map[(x, y) := DataItem(CharList(body.0))], ScanRow(row, y, body.1 + 1, vocab, inputs, parseValue));
      } else if IsDigit(ch) {
        var e := DigitEnd(row, x);
        ScanRowCells(row, y, e, vocab, inputs, parseValue);
        AfterInRow(row, y, x, e, DataItem(NumAtom(Decimal(row[x..e]))), ScanRow(row, y, e, vocab, inputs, parseValue));
        assert ScanRow(row, y, x, vocab, inputs, parseValue) == After(map[(x, y) := DataItem(NumAtom(Decimal(row[x..e])))], ScanRow(row, y, e, vocab, inputs, parseValue));
      } else if ch == 'i' || ch == 'I' {
        if inputs != [] {
          ScanRowCells(row, y, x + 1, vocab, inputs[1..], parseValue);
          var v := if ch == 'i' then parseValue(inputs[0]) else CharList(inputs[0]);
          AfterInRow(row, y, x, x + 1, DataItem(v), ScanRow(row, y, x + 1, vocab, inputs[1..], parseValue));
          assert ScanRow(row, y, x, vocab, inputs, parseValue) == After(map[(x, y) := DataItem(v)], ScanRow(row, y, x + 1, vocab, inputs[1..], parseValue));
        }
      } else {
        ScanRowCells(row, y, x + 1, vocab, inputs, parseValue);
        var r := ScanRow(row, y, x + 1, vocab, inputs, parseValue);
        if ch in vocab.funcs {
          AfterInRow(row, y, x, x + 1, FunctionItem(vocab.funcs[ch]), r);
          assert ScanRow(row, y, x, vocab, inputs, parseValue) == After(map[(x, y) := FunctionItem(vocab.funcs[ch])], r);
        } else if ch in vocab.opers {
          AfterInRow(row, y, x, x + 1, OperatorItem(vocab.opers[ch]), r);
          assert ScanRow(row, y, x, vocab, inputs, parseValue) == After(map[(x, y) := OperatorItem(vocab.opers[ch])], r);
        } else if ch in ControlGlyphs {
          AfterInRow(row, y, x, x + 1, ControlItem(ch), r);
          assert ScanRow(row, y, x, vocab, inputs, parseValue) == After(map[(x, y) := ControlItem(ch)], r);
        }
      }
    }
  }

  /** Every token of rows y and below sits inside the grid: in one of those
      rows, at a column of that row. */
  lemma {:induction false} ScanGridCells(grid: seq<string>, y: nat, vocab: Vocab, inputs: seq<string>,
                                         parseValue: string -> Value)
    requires y <= |grid|
    ensures var r := ScanGrid(grid, y, vocab, inputs, parseValue);
      r.Ok? ==> forall p :: p in r.val.cells ==>
        y <= p.1 < |grid| && 0 <= p.0 < |grid[p.1]| && !r.val.cells[p].DummyItem?
    decreases |grid| - y
  {
    if y < |grid| {
      ScanRowCells(grid[y], y, 0, vocab, inputs, parseValue);
      var row := ScanRow(grid[y], y, 0, vocab, inputs, parseValue);
      if row.Ok? {
        ScanGridCells(grid, y + 1, vocab, row.val.rest, parseValue);
      }
    }
  }

  /** The width of the widest row: no row is wider, and a non-empty grid has
      a row that wide. */
  function MaxWidth(grid: seq<string>): (r: nat)
    ensures forall i :: 0 <= i < |grid| ==> |grid[i]| <= r
    ensures grid != [] ==> exists i :: 0 <= i < |grid| && |grid[i]| == r
  {
    if grid == [] then 0
    else
      var rest := MaxWidth(grid[1..]);
      assert forall i :: 1 <= i < |grid| ==> grid[i] == grid[1..][i - 1];
      if |grid[0]| >= rest then |grid[0]| else rest
  }

  lemma AfterEmpty(r: Res<Scanned>)
    ensures After(map[], r) == r
  {
    if r.Ok? {
      assert map[] + r.val.cells == r.val.cells;
    }
  }

  lemma AfterAfter(m1: map<Pos, Content>, m2: map<Pos, Content>, r: Res<Scanned>)
    ensures After(m1, After(m2, r)) == After(m1 + m2, r)
  {
    if r.Ok? {
      assert m1 + (m2 + r.val.cells) == (m1 + m2) + r.val.cells;
    }
  }

  /** Reads a string literal's body as the source's inner loop does. */
  method ReadString(row: string, start: nat) returns (chars: string, i: nat)
    ensures (chars, i) == StringBody(row, start)
  {
    i := start;
    chars := [];
    while i < |row| && row[i] != '"'
      invariant start <= i
      invariant chars + StringBody(row, i).0 == StringBody(row, start).0
      invariant StringBody(row, i).1 == StringBody(row, start).1
      decreases |row| - i
    {
      var c := row[i];
      ghost var i0 := i;
      if c == '\\' {
        if i == |row| - 1 {
          c := '\n';
        } else {
          c := row[i + 1];
          if c == 'n' {
            c := '\n';
          }
        }
        i := i + 2;
      } else {
        i := i + 1;
      }
      StringBodyStep(row, i0, c, i);
      ghost var body := StringBody(row, i).0;
      assert (chars + [c]) + body == chars + ([c] + body);
      chars := chars + [c];
    }
    assert StringBody(row, i) == ([], i);
    assert chars + [] == chars;
  }

  /** Reads a run of digits as the source's inner loop does. */
  method ReadNumber(row: string, start: nat) returns (n: nat, i: nat)
    requires start <= |row|
    ensures i == DigitEnd(row, start)
    ensures n == Decimal(row[start..i])
  {
    i := start;
    n := 0;
    while i < |row| && IsDigit(row[i])
      invariant start <= i <= |row|
      invariant DigitEnd(row, i) == DigitEnd(row, start)
      invariant forall k :: start <= k < i ==> IsDigit(row[k])
      invariant n == Decimal(row[start..i])
      decreases |row| - i
    {
      assert row[start..i + 1][..i - start] == row[start..i];
      n := n * 10 + DigitValue(row[i]);
      i := i + 1;
    }
  }

  /** Tokenizes one row, left to right. */
  method TokenizeRow(row: string, y: int, vocab: Vocab, inputs: seq<string>, parseValue: string -> Value)
    returns (r: Res<Scanned>)
    ensures r == ScanRow(row, y, 0, vocab, inputs, parseValue)
  {
    var cells: map<Pos, Content> := map[];
    var rest := inputs;
    var x: nat := 0;
    AfterEmpty(ScanRow(row, y, 0, vocab, inputs, parseValue));
    while x < |row|
      invariant ScanRow(row, y, 0, vocab, inputs, parseValue) == After(cells, ScanRow(row, y, x, vocab, rest, parseValue))
      decreases |row| - x
    {
      var ch := row[x];
      ghost var later := ScanRow(row, y, x, vocab, rest, parseValue);
      if ch == '\'' {
        var c := if x == |row| - 1 then '\n' else row[x + 1];
        AfterAfter(cells, map[(x, y) := DataItem(CharAtom(c))], ScanRow(row, y, x + 2, vocab, rest, parseValue));
        cells := cells + map[(x, y) := DataItem(CharAtom(c))];
        x := x + 2;
      } else if ch == '"' {
        var chars, i := ReadString(row, x + 1);
        AfterAfter(cells, map[(x, y) := DataItem(CharList(chars))], ScanRow(row, y, i + 1, vocab, rest, parseValue));
        assert later == After(map[(x, y) := DataItem(CharList(chars))], ScanRow(row, y, i + 1, vocab, rest, parseValue));
        cells := cells + map[(x, y) := DataItem(CharList(chars))];
        x := i + 1;
      } else if IsDigit(ch) {
        var n, i := ReadNumber(row, x);
        AfterAfter(cells, map[(x, y) := DataItem(NumAtom(n))], ScanRow(row, y, i, vocab, rest, parseValue));
        assert later == After(map[(x, y) := DataItem(NumAtom(n))], ScanRow(row, y, i, vocab, rest, parseValue));
        cells := cells + map[(x, y) := DataItem(NumAtom(n))];
        x := i;
      } else if ch == 'i' || ch == 'I' {
        if rest == [] {
          return Fail(Raised("EOF when reading a line"));
        }
        var line := rest[0];
        var v := if ch == 'i' then parseValue(line) else CharList(line);
        AfterAfter(cells, map[(x, y) := DataItem(v)], ScanRow(row, y, x + 1, vocab, rest[1..], parseValue));
        assert later == After(map[(x, y) := DataItem(v)], ScanRow(row, y, x + 1, vocab, rest[1..], parseValue));
        cells := cells + map[(x, y) := DataItem(v)];
        rest := rest[1..];
        x := x + 1;
      } else if ch in vocab.funcs {
        AfterAfter(cells, map[(x, y) := FunctionItem(vocab.funcs[ch])], ScanRow(row, y, x + 1, vocab, rest, parseValue));
        cells := cells + map[(x, y) := FunctionItem(vocab.funcs[ch])];
        x := x + 1;
      } else if ch in vocab.opers {
        AfterAfter(cells, map[(x, y) := OperatorItem(vocab.opers[ch])], ScanRow(row, y, x + 1, vocab, rest, parseValue));
        cells := cells + map[(x, y) := OperatorItem(vocab.opers[ch])];
        x := x + 1;
      } else if ch in ControlGlyphs {
        AfterAfter(cells, map[(x, y) := ControlItem(ch)], ScanRow(row, y, x + 1, vocab, rest, parseValue));
        cells := cells + map[(x, y) := ControlItem(ch)];
        x := x + 1;
      } else {
        x := x + 1;
      }
    }
    r := Ok(Scanned(cells, rest));
    assert cells + map[] == cells;
  }

  /** Tokenizes the whole grid, row by row from the top. */
  method Tokenize(grid: seq<string>, vocab: Vocab, inputs: seq<string>, parseValue: string -> Value)
    returns (r: Res<Scanned>)
    ensures r == ScanGrid(grid, 0, vocab, inputs, parseValue)
  {
    var cells: map<Pos, Content> := map[];
    var rest := inputs;
    var y := 0;
    AfterEmpty(ScanGrid(grid, 0, vocab, inputs, parseValue));
    while y < |grid|
      invariant y <= |grid|
      invariant ScanGrid(grid, 0, vocab, inputs, parseValue) == After(cells, ScanGrid(grid, y, vocab, rest, parseValue))
      decreases |grid| - y
    {
      var row := TokenizeRow(grid[y], y, vocab, rest, parseValue);
      if row.Fail? {
        return Fail(row.why);
      }
      AfterAfter(cells, row.val.cells, ScanGrid(grid, y + 1, vocab, row.val.rest, parseValue));
      cells := cells + row.val.cells;
      rest := row.val.rest;
      y := y + 1;
    }
    r := Ok(Scanned(cells, rest));
    assert cells + map[] == cells;
  }
}

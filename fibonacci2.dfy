/** The one-column Fibonacci circuit of src/fibonacci/example2.rs: a single
    advice column, one region of `iter_num` rows, gate
    s * (a(r) + a(r + 1) - a(r + 2)) over rotations 0, +1 and +2, and the last
    cell bound to instance row 0. */
module Fibonacci2 {
  import opened Plonk
  import opened Assignment
  import opened Terms

  /** `FiboChip::configure`: gate "add" reads the advice column at
      `Rotation::cur()`, `Rotation::next()` and `Rotation(2)`; equality on the
      advice and instance columns. */
  function Configure(): ConstraintSystem
  {
    ConstraintSystem(
      Gate("add", Product(Selector, Difference(Sum(Query(0, 0), Query(0, 1)), Query(0, 2)))),
      {Advice(0), Instance(0)})
  }

  function At(row: nat): Cell { Cell(Advice(0), row) }

  /** The gate evaluated at `row` queries rows `row`, `row + 1` and `row + 2`. */
  lemma AddGateReads(row: nat)
    ensures Reads(Configure().gate.poly, row) == {(0, row), (0, row + 1), (0, row + 2)}
  {
    assert Reads(Query(0, 0), row) == {(0, row)};
    assert Reads(Query(0, 1), row) == {(0, row + 1)};
    assert Reads(Query(0, 2), row) == {(0, row + 2)};
    assert Reads(Sum(Query(0, 0), Query(0, 1)), row) == {(0, row), (0, row + 1)};
  }

  /** At an enabled row the gate is zero exactly when the three cells are
      assigned and the third is the sum of the first two. */
  lemma AddGateIff(t: Table, row: nat)
    requires row in t.enabled
    ensures Eval(Configure().gate.poly, t, row) == Some(0) <==>
      At(row) in t.cells && At(row + 1) in t.cells && At(row + 2) in t.cells &&
      t.cells[At(row)] + t.cells[At(row + 1)] == t.cells[At(row + 2)]
  {
    var q0, q1, q2 := Eval(Query(0, 0), t, row), Eval(Query(0, 1), t, row), Eval(Query(0, 2), t, row);
    var sum := Eval(Sum(Query(0, 0), Query(0, 1)), t, row);
    assert sum == if q0.Some? && q1.Some? then Some(q0.value + q1.value) else None;
    var diff := Eval(Difference(Sum(Query(0, 0), Query(0, 1)), Query(0, 2)), t, row);
    assert diff == if sum.Some? && q2.Some? then Some(sum.value - q2.value) else None;
    assert Eval(Selector, t, row) == Some(1);
  }

  /** Rows the region touches: `iter_num` rows, but never fewer than the two
      initial cells. */
  function Height(n: nat): nat
  {
    if n < 2 then 2 else n
  }

  /** The relative row of the cell `assign` returns: the last one the loop
      writes, or row 1 when the loop does not run. */
  function LastRow(n: nat): nat
  {
    if n >= 3 then n - 1 else 1
  }

  /** The returned cell is the last row of the region. */
  lemma LastRowIsLast(n: nat)
    ensures LastRow(n) == Height(n) - 1
  {
  }

  /** `base` with the first `m` cells of the region at `off` written in:
      relative row r holds term r. */
  function ColumnCells(base: map<Cell, int>, a: int, b: int, off: nat, m: nat): map<Cell, int>
  {
    if m == 0 then base else ColumnCells(base, a, b, off, m - 1)[At(off + m - 1) := Term(a, b, m - 1)]
  }

  lemma {:induction false} ColumnCellsAt(base: map<Cell, int>, a: int, b: int, off: nat, m: nat, c: Cell)
    ensures c in ColumnCells(base, a, b, off, m) <==>
      c in base || (c.column == Advice(0) && off <= c.row < off + m)
    ensures c.column == Advice(0) && off <= c.row < off + m ==>
      ColumnCells(base, a, b, off, m)[c] == Term(a, b, c.row - off)
  {
    if m > 0 {
      ColumnCellsAt(base, a, b, off, m - 1, c);
    }
  }

  /** The row after the first `m` of the region is still free when the region
      starts past every cell of `base`. */
  lemma ColumnCellsFresh(base: map<Cell, int>, a: int, b: int, off: nat, m: nat)
    requires forall c | c in base :: c.row < off
    ensures At(off + m) !in ColumnCells(base, a, b, off, m)
  {
    ColumnCellsAt(base, a, b, off, m, At(off + m));
  }

  /** The selector rows of the region at `off` once `assign` has handled the
      relative rows below `upto`: rows 0 and 1 up front, then row r of the loop
      when r < n - 2. */
  function EnabledBelow(off: nat, n: nat, upto: nat): set<nat>
  {
    if upto <= 2 then {off, off + 1}
    else EnabledBelow(off, n, upto - 1) + (if upto - 1 < n - 2 then {off + upto - 1} else {})
  }

  /** The selector rows `assign` enables for `iter_num` = n. */
  function Schedule(off: nat, n: nat): set<nat>
  {
    EnabledBelow(off, n, Height(n))
  }

  lemma {:induction false} EnabledBelowIff(off: nat, n: nat, upto: nat, r: nat)
    ensures r in EnabledBelow(off, n, upto) <==>
      off <= r && (r < off + 2 || (r < off + upto && r - off < n - 2))
  {
    if upto > 2 {
      EnabledBelowIff(off, n, upto - 1, r);
    }
  }

  /** The selector is on exactly on relative rows [0, n - 2) when n >= 4, and on
      rows 0 and 1 alone otherwise. */
  lemma ScheduleIff(off: nat, n: nat, r: nat)
    ensures r in Schedule(off, n) <==> off <= r < off + (if n >= 4 then n - 2 else 2)
  {
    EnabledBelowIff(off, n, Height(n), r);
  }

  /** Every gate row reads inside the region exactly when n >= 4: rows 0 and 1
      are enabled whatever n is, and row 1 reads row 3. */
  lemma ReadsInsideRegionIff(off: nat, n: nat)
    ensures (forall r, q | r in Schedule(off, n) && q in Reads(Configure().gate.poly, r) ::
               off <= q.1 < off + Height(n)) <==> n >= 4
  {
    if n >= 4 {
      forall r, q | r in Schedule(off, n) && q in Reads(Configure().gate.poly, r)
        ensures off <= q.1 < off + Height(n)
      {
        ScheduleIff(off, n, r);
        AddGateReads(r);
      }
    } else {
      ScheduleIff(off, n, off + 1);
      AddGateReads(off + 1);
      assert (0, off + 3) in Reads(Configure().gate.poly, off + 1);
    }
  }

  /** The table `synthesize` builds for `iter_num` = n from inputs `a` and `b`. */
  function Layout(a: int, b: int, n: nat): Table
  {
    Table(ColumnCells(map[], a, b, 0, Height(n)), Schedule(0, n), [], [Binding(At(LastRow(n)), 0, 0)])
  }

  /** The column `synthesize` fills: rows 0 and 1 hold the inputs and every
      later row is the sum of the two before it. */
  lemma LayoutColumn(a: int, b: int, n: nat, r: nat)
    requires r < Height(n)
    ensures var cells := Layout(a, b, n).cells;
      At(0) in cells && At(1) in cells && At(r) in cells &&
      cells[At(0)] == a && cells[At(1)] == b &&
      (r >= 2 ==> At(r - 2) in cells && At(r - 1) in cells && cells[At(r)] == cells[At(r - 2)] + cells[At(r - 1)])
  {
    ColumnCellsAt(map[], a, b, 0, Height(n), At(0));
    ColumnCellsAt(map[], a, b, 0, Height(n), At(1));
    ColumnCellsAt(map[], a, b, 0, Height(n), At(r));
    if r >= 2 {
      ColumnCellsAt(map[], a, b, 0, Height(n), At(r - 2));
      ColumnCellsAt(map[], a, b, 0, Height(n), At(r - 1));
      Recurrence(a, b, r - 2);
    }
  }

  /** With n >= 4 the gate holds on every row of the layout. */
  lemma LayoutGatesHold(a: int, b: int, n: nat, rows: nat)
    requires n >= 4
    ensures GateHolds(Configure().gate, Layout(a, b, n), rows)
  {
    var t := Layout(a, b, n);
    forall r: nat | r < rows && r in t.enabled
      ensures Eval(Configure().gate.poly, t, r) == Some(0)
    {
      ScheduleIff(0, n, r);
      ColumnCellsAt(map[], a, b, 0, n, At(r));
      ColumnCellsAt(map[], a, b, 0, n, At(r + 1));
      ColumnCellsAt(map[], a, b, 0, n, At(r + 2));
      Recurrence(a, b, r);
      AddGateIff(t, r);
    }
  }

  /** The check on the layout: with n >= 4 it accepts exactly when instance
      row 0 is term n - 1, and otherwise reports one mismatch at row 0; with
      n < 4 the gate at row 1 reads an unassigned cell and fails. */
  lemma LayoutCheck(a: int, b: int, n: nat, rows: nat, instance: seq<seq<int>>)
    requires rows >= Height(n)
    ensures n >= 4 ==>
      Check(Configure(), Layout(a, b, n), rows, instance) ==
        (if |instance| > 0 && |instance[0]| > 0 && instance[0][0] == Term(a, b, n - 1) then []
         else [PublicInputMismatch(0, 0)])
    ensures n < 4 ==> GateUnsatisfied("add", 1) in Check(Configure(), Layout(a, b, n), rows, instance)
  {
    var t := Layout(a, b, n);
    if n >= 4 {
      LayoutGatesHold(a, b, n, rows);
      ColumnCellsAt(map[], a, b, 0, n, At(n - 1));
    } else {
      ScheduleIff(0, n, 1);
      ColumnCellsAt(map[], a, b, 0, Height(n), At(3));
      AddGateIff(t, 1);
      assert GateUnsatisfied("add", 1) in GateFailures(Configure().gate, t, rows);
    }
  }

  /** In any table the check accepts whose selector covers rows [0, n - 2),
      row i holds term i of the sequence that starts with rows 0 and 1. */
  lemma {:induction false} ColumnForced(t: Table, n: nat, rows: nat, i: nat)
    requires 4 <= n && n - 2 <= rows && i < n
    requires forall r: nat | r < n - 2 :: r in t.enabled
    requires GateHolds(Configure().gate, t, rows)
    ensures At(0) in t.cells && At(1) in t.cells && At(i) in t.cells
    ensures t.cells[At(i)] == Term(t.cells[At(0)], t.cells[At(1)], i)
  {
    assert 0 in t.enabled;
    AddGateIff(t, 0);
    if i >= 2 {
      ColumnForced(t, n, rows, i - 1);
      ColumnForced(t, n, rows, i - 2);
      assert i - 2 in t.enabled;
      AddGateIff(t, i - 2);
    }
  }

  /** Soundness: whatever witness the check accepts with this selector schedule
      and binding, the public output is term n - 1 of the sequence its first two
      cells start. */
  lemma Sound(t: Table, n: nat, rows: nat, instance: seq<seq<int>>)
    requires 4 <= n && n - 2 <= rows
    requires forall r: nat | r < n - 2 :: r in t.enabled
    requires t.bindings == [Binding(At(n - 1), 0, 0)]
    requires Satisfied(Configure(), t, rows, instance)
    ensures At(0) in t.cells && At(1) in t.cells
    ensures |instance| > 0 && |instance[0]| > 0 && instance[0][0] == Term(t.cells[At(0)], t.cells[At(1)], n - 1)
  {
    ColumnForced(t, n, rows, n - 1);
    assert Binding(At(n - 1), 0, 0) in t.bindings;
  }

  /** One pass of the loop in `assign` at relative row `row` of the region at
      `off`: enable the selector when row < iter_num - 2, then write a + b. */
  method AssignStep(lay: Layouter, off: nat, row: usize, iterNum: usize, a: Option<int>, b: Option<int>)
    returns (r: Result<AssignedCell>)
    requires 2 <= row < iterNum
    requires At(off + row as int) !in lay.cells
    modifies lay`cells, lay`enabled
    ensures r == if off + row as int >= lay.usable then Err(NotEnoughRowsAvailable)
                 else if a.None? || b.None? then Err(Synthesis)
                 else Ok(AssignedCell(At(off + row as int), Some(a.value + b.value)))
    ensures r.Ok? ==>
      lay.cells == old(lay.cells)[At(off + row as int) := a.value + b.value] &&
      lay.enabled == old(lay.enabled) + (if row < iterNum - 2 then {off + row as int} else {})
  {
    // not to enable the selector in the last two rows
    if row < iterNum - 2 {
      var e := lay.EnableSelector(off + row as int);
      if e.Err? {
        return Err(e.error);
      }
    }
    var next := if b.Some? && a.Some? then Some(a.value + b.value) else None;
    r := lay.AssignAdvice(0, off + row as int, next);
  }

  /** The start of the region closure in `assign`: selector on relative rows
      0 and 1, then the two inputs into cells 0 and 1; returns cell 1. */
  method AssignFirstRows(lay: Layouter, off: nat, initA: Option<int>, initB: Option<int>) returns (r: Result<AssignedCell>)
    requires At(off) !in lay.cells && At(off + 1) !in lay.cells
    modifies lay`cells, lay`enabled
    ensures r == if off + 1 >= lay.usable then Err(NotEnoughRowsAvailable)
                 else if initA.None? || initB.None? then Err(Synthesis)
                 else Ok(AssignedCell(At(off + 1), initB))
    ensures r.Ok? ==>
      lay.cells == old(lay.cells)[At(off) := initA.value][At(off + 1) := initB.value] &&
      lay.enabled == old(lay.enabled) + {off, off + 1}
  {
    var e := lay.EnableSelector(off);
    if e.Err? {
      return Err(e.error);
    }
    e := lay.EnableSelector(off + 1);
    if e.Err? {
      return Err(e.error);
    }
    var aCell := lay.AssignAdvice(0, off, initA);
    if aCell.Err? {
      return Err(aCell.error);
    }
    r := lay.AssignAdvice(0, off + 1, initB);
  }

  /** The loop of `assign` over relative rows `2..iter_num` of the region at
      `off`, once cells 0 and 1 hold the inputs; returns the last cell written. */
  method AssignLoop(lay: Layouter, off: nat, iterNum: usize, ghost base: map<Cell, int>, a0: int, b0: int)
    returns (r: Result<AssignedCell>)
    requires forall c | c in base :: c.row < off
    requires off + 2 <= lay.usable
    requires lay.cells == ColumnCells(base, a0, b0, off, 2)
    modifies lay`cells, lay`enabled
    ensures r == if off + Height(iterNum as int) > lay.usable then Err(NotEnoughRowsAvailable)
                 else Ok(AssignedCell(At(off + LastRow(iterNum as int)), Some(Term(a0, b0, LastRow(iterNum as int)))))
    ensures r.Ok? ==>
      lay.cells == ColumnCells(base, a0, b0, off, Height(iterNum as int)) &&
      lay.enabled == old(lay.enabled) + (Schedule(off, iterNum as int) - {off, off + 1})
  {
    var a, b := Some(a0), Some(b0);
    var bCell := AssignedCell(At(off + 1), b);
    ghost var n: nat := iterNum as int;
    var row: usize := 2;
    ghost var i: nat := 2;
    while row < iterNum
      invariant i == row as int && 2 <= i <= Height(n)
      invariant off + i <= lay.usable
      invariant lay.cells == ColumnCells(base, a0, b0, off, i)
      invariant lay.enabled == old(lay.enabled) + (EnabledBelow(off, n, i) - {off, off + 1})
      invariant a == Some(Term(a0, b0, i - 2)) && b == Some(Term(a0, b0, i - 1))
      invariant bCell == AssignedCell(At(off + i - 1), b)
    {
      ColumnCellsFresh(base, a0, b0, off, i);
      var c := AssignStep(lay, off, row, iterNum, a, b);
      if c.Err? {
        return Err(c.error);
      }
      assert Term(a0, b0, i) == a.value + b.value by {
        Recurrence(a0, b0, i - 2);
      }
      bCell := c.value;
      a := b;
      b := bCell.value;
      row := row + 1;
      i := i + 1;
    }
    return Ok(bCell);
  }

  /** `FiboChip::assign`: one region at the next free row; selector on rows 0
      and 1; cells 0 and 1 from the inputs; then for each row in
      `2..iter_num` the selector when row < iter_num - 2 and the cell
      a + b, shifting a and b along. Returns the last cell written. */
  method Assign(lay: Layouter, initA: Option<int>, initB: Option<int>, iterNum: usize) returns (r: Result<AssignedCell>)
    requires lay.Valid()
    modifies lay`cells, lay`enabled, lay`used
    ensures r == if old(lay.used) + 1 >= lay.usable then Err(NotEnoughRowsAvailable)
                 else if initA.None? || initB.None? then Err(Synthesis)
                 else if old(lay.used) + Height(iterNum as int) > lay.usable then Err(NotEnoughRowsAvailable)
                 else Ok(AssignedCell(At(old(lay.used) + LastRow(iterNum as int)),
                                      Some(Term(initA.value, initB.value, LastRow(iterNum as int)))))
    ensures r.Ok? ==>
      lay.used == old(lay.used) + Height(iterNum as int) &&
      lay.cells == ColumnCells(old(lay.cells), initA.value, initB.value, old(lay.used), Height(iterNum as int)) &&
      lay.enabled == old(lay.enabled) + Schedule(old(lay.used), iterNum as int)
  {
    var off := lay.used;
    var first := AssignFirstRows(lay, off, initA, initB);
    if first.Err? {
      return Err(first.error);
    }
    ghost var base := old(lay.cells);
    assert ColumnCells(base, initA.value, initB.value, off, 1) == base[At(off) := initA.value];
    r := AssignLoop(lay, off, iterNum, base, initA.value, initB.value);
    if r.Ok? {
      lay.EndRegion(Height(iterNum as int));
      assert {off, off + 1} <= Schedule(off, iterNum as int) by {
        ScheduleIff(off, iterNum as int, off);
        ScheduleIff(off, iterNum as int, off + 1);
      }
    }
  }

  /** `FiboChip::expose_public`: bind `cell` to row `row` of the instance column. */
  method ExposePublic(lay: Layouter, cell: AssignedCell, row: nat) returns (r: Result<()>)
    modifies lay`bindings
    ensures r == if cell.cell.row >= lay.usable || row >= lay.usable then Err(NotEnoughRowsAvailable)
                 else if cell.cell.column !in lay.equality || Instance(0) !in lay.equality then Err(ColumnNotInPermutation)
                 else Ok(())
    ensures lay.bindings == if r.Ok? then old(lay.bindings) + [Binding(cell.cell, 0, row)] else old(lay.bindings)
  {
    r := lay.ConstrainInstance(cell.cell, 0, row);
  }

  /** `MyCircuit::synthesize`: `assign` with iter_num = 10, then expose the
      returned cell at instance row 0. */
  method Synthesize(lay: Layouter, a: Option<int>, b: Option<int>) returns (r: Result<()>)
    requires lay.Empty() && lay.equality == Configure().equality
    modifies lay
    ensures r == if lay.usable < 2 then Err(NotEnoughRowsAvailable)
                 else if a.None? || b.None? then Err(Synthesis)
                 else if lay.usable < 10 then Err(NotEnoughRowsAvailable)
                 else Ok(())
    ensures r.Ok? ==> lay.Frozen() == Layout(a.value, b.value, 10)
  {
    var cell := Assign(lay, a, b, 10);
    if cell.Err? {
      return Err(cell.error);
    }
    var e := ExposePublic(lay, cell.value, 0);
    if e.Err? {
      assert false;
    }
    return Ok(());
  }

  /** `MockProver::run(k, circuit, instance)` for inputs `a` and `b`. */
  method MockRun(k: nat, a: Option<int>, b: Option<int>, instance: seq<seq<int>>) returns (r: Result<seq<Failure>>)
    ensures r == if Pow2(k) < 2 then Err(NotEnoughRowsAvailable)
                 else if a.None? || b.None? then Err(Synthesis)
                 else if Pow2(k) < 10 then Err(NotEnoughRowsAvailable)
                 else Ok(Check(Configure(), Layout(a.value, b.value, 10), Pow2(k), instance))
  {
    var cs := Configure();
    var lay := new Layouter(k, cs.equality);
    var s := Synthesize(lay, a, b);
    if s.Err? {
      return Err(s.error);
    }
    return Ok(Check(cs, lay.Frozen(), lay.usable, instance));
  }

  /** `test_example2` and `test_example2_failed` as written, with k = 2: four
      rows cannot hold the ten-row region, so the run itself fails. */
  method TestExample2() returns (accepted: Result<seq<Failure>>, rejected: Result<seq<Failure>>)
    ensures accepted == Err(NotEnoughRowsAvailable) && rejected == Err(NotEnoughRowsAvailable)
  {
    var k, a, b, good, bad := 2, 1, 2, 89, 90;
    accepted := MockRun(k, Some(a), Some(b), [[good]]);
    rejected := MockRun(k, Some(a), Some(b), [[bad]]);
  }

  /** The same two tests with k = 4: the last cell, row 9, is 89, so public
      input 89 is accepted and 90 is rejected with one mismatch at instance row 0. */
  method TestExample2AtK4() returns (accepted: Result<seq<Failure>>, rejected: Result<seq<Failure>>)
    ensures accepted == Ok([]) && rejected == Ok([PublicInputMismatch(0, 0)])
  {
    var k, a, b, good, bad := 4, 1, 2, 89, 90;
    accepted := MockRun(k, Some(a), Some(b), [[good]]);
    rejected := MockRun(k, Some(a), Some(b), [[bad]]);
    TenthTermFromOneTwo();
    LayoutCheck(a, b, 10, Pow2(k), [[good]]);
    LayoutCheck(a, b, 10, Pow2(k), [[bad]]);
  }
}

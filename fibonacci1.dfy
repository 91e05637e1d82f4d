/** The three-column Fibonacci circuit of src/fibonacci/example1.rs: advice
    columns a, b, c, one one-row region per step, gate s * (a + b - c) on the
    current row, and the last c bound to instance row 0. Rows are chained by
    re-supplying the previous row's b and c values, without copy constraints. */
module Fibonacci1 {
  import opened Plonk
  import opened Assignment
  import opened Terms

  /** `FiboChip::configure`: gate "add" is s * (a + b - c), every query at
      `Rotation::cur()`; equality on a, b, c and the instance column. */
  function Configure(): ConstraintSystem
  {
    ConstraintSystem(
      Gate("add", Product(Selector, Difference(Sum(Query(0, 0), Query(1, 0)), Query(2, 0)))),
      {Advice(0), Advice(1), Advice(2), Instance(0)})
  }

  function A(row: nat): Cell { Cell(Advice(0), row) }
  function B(row: nat): Cell { Cell(Advice(1), row) }
  function C(row: nat): Cell { Cell(Advice(2), row) }

  /** The gate queries only its own row. */
  lemma AddGateReadsOwnRow(row: nat)
    ensures Reads(Configure().gate.poly, row) == {(0, row), (1, row), (2, row)}
    ensures forall q | q in Reads(Configure().gate.poly, row) :: q.1 == row
  {
    assert Reads(Sum(Query(0, 0), Query(1, 0)), row) == {(0, row), (1, row)};
    assert Reads(Difference(Sum(Query(0, 0), Query(1, 0)), Query(2, 0)), row) == {(0, row), (1, row), (2, row)};
  }

  /** At an enabled row the gate is zero exactly when a, b and c are assigned and a + b == c. */
  lemma AddGateIff(t: Table, row: nat)
    requires row in t.enabled
    ensures Eval(Configure().gate.poly, t, row) == Some(0) <==>
      A(row) in t.cells && B(row) in t.cells && C(row) in t.cells &&
      t.cells[A(row)] + t.cells[B(row)] == t.cells[C(row)]
  {
    var qa, qb, qc := Eval(Query(0, 0), t, row), Eval(Query(1, 0), t, row), Eval(Query(2, 0), t, row);
    var sum := Eval(Sum(Query(0, 0), Query(1, 0)), t, row);
    assert sum == if qa.Some? && qb.Some? then Some(qa.value + qb.value) else None;
    var diff := Eval(Difference(Sum(Query(0, 0), Query(1, 0)), Query(2, 0)), t, row);
    assert diff == if sum.Some? && qc.Some? then Some(sum.value - qc.value) else None;
    assert Eval(Selector, t, row) == Some(1);
  }

  /** The cells of the first `n` rows `synthesize` writes from inputs `a` and `b`. */
  function RowCells(a: int, b: int, n: nat): map<Cell, int>
  {
    if n == 0 then map[]
    else RowCells(a, b, n - 1)[A(n - 1) := Term(a, b, n - 1)][B(n - 1) := Term(a, b, n)][C(n - 1) := Term(a, b, n + 1)]
  }

  /** Row r holds terms r, r + 1 and r + 2 in columns a, b and c, and nothing else is assigned. */
  lemma {:induction false} RowCellsAt(a: int, b: int, n: nat, c: Cell)
    ensures c in RowCells(a, b, n) <==> c.column.Advice? && c.column.index < 3 && c.row < n
    ensures c in RowCells(a, b, n) ==> RowCells(a, b, n)[c] == Term(a, b, c.row + c.column.index)
  {
    if n > 0 {
      RowCellsAt(a, b, n - 1, c);
    }
  }

  /** The rows 0 .. n - 1. */
  /** One more row: a, b, c get the next term, the one after, and their sum. */
  lemma RowCellsStep(a: int, b: int, n: nat)
    ensures RowCells(a, b, n + 1) ==
      RowCells(a, b, n)[A(n) := Term(a, b, n)][B(n) := Term(a, b, n + 1)][C(n) := Term(a, b, n) + Term(a, b, n + 1)]
  {
  }

  /** The row after the first `n` is still empty. */
  lemma RowCellsFresh(a: int, b: int, n: nat)
    ensures A(n) !in RowCells(a, b, n) && B(n) !in RowCells(a, b, n) && C(n) !in RowCells(a, b, n)
  {
    RowCellsAt(a, b, n, A(n));
    RowCellsAt(a, b, n, B(n));
    RowCellsAt(a, b, n, C(n));
  }

  function Rows(n: nat): set<nat>
  {
    if n == 0 then {} else Rows(n - 1) + {n - 1}
  }

  lemma {:induction false} RowsIff(n: nat, r: nat)
    ensures r in Rows(n) <==> r < n
  {
    if n > 0 {
      RowsIff(n - 1, r);
    }
  }

  /** The table `synthesize` builds from inputs `a` and `b`: eight rows, the
      selector on each, no copy constraints, and the last c bound to instance row 0. */
  function Layout(a: int, b: int): Table
  {
    Table(RowCells(a, b, 8), Rows(8), [], [Binding(C(7), 0, 0)])
  }

  /** Every row of the layout chains on the previous one and satisfies the gate;
      the bound cell is the tenth term. */
  lemma LayoutRows(a: int, b: int, i: nat)
    requires i < 8
    ensures var cells := Layout(a, b).cells;
      A(i) in cells && B(i) in cells && C(i) in cells &&
      cells[A(i)] + cells[B(i)] == cells[C(i)] &&
      (i < 7 ==> A(i + 1) in cells && B(i + 1) in cells &&
                 cells[A(i + 1)] == cells[B(i)] && cells[B(i + 1)] == cells[C(i)]) &&
      C(7) in cells && cells[C(7)] == Term(a, b, 9)
  {
    RowCellsAt(a, b, 8, A(i));
    RowCellsAt(a, b, 8, B(i));
    RowCellsAt(a, b, 8, C(i));
    RowCellsAt(a, b, 8, A(i + 1));
    RowCellsAt(a, b, 8, B(i + 1));
    RowCellsAt(a, b, 8, C(7));
  }

  /** The gate holds on every row of a table whose cells and selector are
      those `synthesize` writes, whatever copies and bindings it records. */
  lemma RowCellsGatesHold(t: Table, a: int, b: int, rows: nat)
    requires t.cells == RowCells(a, b, 8) && t.enabled == Rows(8)
    ensures GateHolds(Configure().gate, t, rows)
  {
    forall r: nat | r < rows && r in t.enabled
      ensures Eval(Configure().gate.poly, t, r) == Some(0)
    {
      RowsIff(8, r);
      LayoutRows(a, b, r);
      AddGateIff(t, r);
    }
  }

  /** The mock prover accepts the layout exactly when instance row 0 is the
      tenth term; otherwise the one failure is a public-input mismatch at row 0. */
  lemma LayoutCheck(a: int, b: int, rows: nat, instance: seq<seq<int>>)
    requires rows >= 8
    ensures Check(Configure(), Layout(a, b), rows, instance) ==
      if |instance| > 0 && |instance[0]| > 0 && instance[0][0] == Term(a, b, 9) then []
      else [PublicInputMismatch(0, 0)]
  {
    RowCellsGatesHold(Layout(a, b), a, b, rows);
    LayoutRows(a, b, 7);
  }

  /** `FiboChip::assign_row`: one region at the next free row, selector on,
      a = prev_b, b = prev_c, c = prev_b + prev_c; a missing input is a
      synthesis error. Returns the c cell. */
  method AssignRow(lay: Layouter, prevB: Option<int>, prevC: Option<int>) returns (r: Result<AssignedCell>)
    requires A(lay.used) !in lay.cells && B(lay.used) !in lay.cells && C(lay.used) !in lay.cells
    modifies lay
    ensures lay.copies == old(lay.copies) && lay.bindings == old(lay.bindings)
    ensures r == if old(lay.used) >= lay.usable then Err(NotEnoughRowsAvailable)
                 else if prevB.None? || prevC.None? then Err(Synthesis)
                 else Ok(AssignedCell(C(old(lay.used)), Some(prevB.value + prevC.value)))
    ensures r.Ok? ==>
      lay.used == old(lay.used) + 1 &&
      lay.enabled == old(lay.enabled) + {old(lay.used)} &&
      lay.cells == old(lay.cells)[A(old(lay.used)) := prevB.value][B(old(lay.used)) := prevC.value]
                                 [C(old(lay.used)) := prevB.value + prevC.value]
  {
    var off := lay.used;
    var e := lay.EnableSelector(off);
    if e.Err? {
      return Err(e.error);
    }
    var cVal := if prevB.Some? && prevC.Some? then Some(prevB.value + prevC.value) else None;
    var aCell := lay.AssignAdvice(0, off, prevB);
    if aCell.Err? {
      return Err(aCell.error);
    }
    var bCell := lay.AssignAdvice(1, off, prevC);
    if bCell.Err? {
      return Err(bCell.error);
    }
    var cCell := lay.AssignAdvice(2, off, cVal);
    if cCell.Err? {
      assert false;
    }
    lay.EndRegion(1);
    return Ok(cCell.value);
  }

  /** `FiboChip::expose_public`: bind `cell` to row `row` of the instance column. */
  method ExposePublic(lay: Layouter, cell: AssignedCell, row: nat) returns (r: Result<()>)
    modifies lay
    ensures r == if cell.cell.row >= lay.usable || row >= lay.usable then Err(NotEnoughRowsAvailable)
                 else if cell.cell.column !in lay.equality || Instance(0) !in lay.equality then Err(ColumnNotInPermutation)
                 else Ok(())
    ensures lay.bindings == if r.Ok? then old(lay.bindings) + [Binding(cell.cell, 0, row)] else old(lay.bindings)
    ensures lay.cells == old(lay.cells) && lay.enabled == old(lay.enabled) &&
            lay.copies == old(lay.copies) && lay.used == old(lay.used)
  {
    r := lay.ConstrainInstance(cell.cell, 0, row);
  }

  /** `MyCircuit::synthesize`: one row from the inputs, then seven more for
      `3..10`, each fed the previous row's b and c; then the last c is exposed. */
  method Synthesize(lay: Layouter, a: Option<int>, b: Option<int>) returns (r: Result<()>)
    requires lay.Empty() && lay.equality == Configure().equality
    modifies lay
    ensures r == if a.None? || b.None? then Err(Synthesis)
                 else if lay.usable < 8 then Err(NotEnoughRowsAvailable)
                 else Ok(())
    ensures r.Ok? ==> lay.Frozen() == Layout(a.value, b.value) && lay.used == 8
  {
    var prevB, prevC := a, b;
    var first := AssignRow(lay, prevB, prevC);
    if first.Err? {
      return Err(first.error);
    }
    ghost var av, bv := a.value, b.value;
    var cCell := first.value;
    RowCellsStep(av, bv, 0);
    for i := 3 to 10
      invariant lay.used == i - 2 <= lay.usable
      invariant lay.cells == RowCells(av, bv, i - 2)
      invariant lay.enabled == Rows(i - 2)
      invariant lay.copies == [] && lay.bindings == []
      invariant prevC == Some(Term(av, bv, i - 2))
      invariant cCell == AssignedCell(C(i - 3), Some(Term(av, bv, i - 1)))
    {
      prevB := prevC;
      prevC := cCell.value;
      RowCellsFresh(av, bv, i - 2);
      var next := AssignRow(lay, prevB, prevC);
      if next.Err? {
        return Err(next.error);
      }
      cCell := next.value;
      RowCellsStep(av, bv, i - 2);
      Recurrence(av, bv, i - 2);
    }
    var e := ExposePublic(lay, cCell, 0);
    if e.Err? {
      assert false;
    }
    return Ok(());
  }

  /** `MockProver::run(k, circuit, instance)` for inputs `a` and `b`: configure,
      synthesize on 2^k rows, then check. */
  method MockRun(k: nat, a: Option<int>, b: Option<int>, instance: seq<seq<int>>) returns (r: Result<seq<Failure>>)
    ensures r == if a.None? || b.None? then Err(Synthesis)
                 else if Pow2(k) < 8 then Err(NotEnoughRowsAvailable)
                 else Ok(Check(Configure(), Layout(a.value, b.value), Pow2(k), instance))
  {
    var cs := Configure();
    var lay := new Layouter(k, cs.equality);
    var s := Synthesize(lay, a, b);
    if s.Err? {
      return Err(s.error);
    }
    return Ok(Check(cs, lay.Frozen(), lay.usable, instance));
  }

  /** `test_example1`: k = 4, a = 1, b = 2, public input 89 is accepted. */
  method TestExample1() returns (r: Result<seq<Failure>>)
    ensures r == Ok([])
  {
    var k, a, b, out := 4, 1, 2, 89;
    r := MockRun(k, Some(a), Some(b), [[out]]);
    TenthTermFromOneTwo();
    LayoutCheck(a, b, Pow2(k), [[out]]);
  }

  /** `test_example1_failed`: the same circuit with public input 90 is rejected
      with exactly one mismatch, at instance row 0. */
  method TestExample1Failed() returns (r: Result<seq<Failure>>)
    ensures r == Ok([PublicInputMismatch(0, 0)])
  {
    var k, a, b, out := 4, 1, 2, 90;
    r := MockRun(k, Some(a), Some(b), [[out]]);
    TenthTermFromOneTwo();
    LayoutCheck(a, b, Pow2(k), [[out]]);
  }

  /** A table that starts from 1 and 2 like the honest layout but whose last
      row does not continue the chain: (34, 56, 90) instead of (34, 55, 89). */
  function Forged(): Table
  {
    Layout(1, 2).(cells := Layout(1, 2).cells[B(7) := 56][C(7) := 90])
  }

  lemma ForgedRow(r: nat)
    requires r < 8
    ensures var cells := Forged().cells;
      A(r) in cells && B(r) in cells && C(r) in cells &&
      cells[A(r)] + cells[B(r)] == cells[C(r)]
  {
    LayoutRows(1, 2, r);
    if r == 7 {
      RowCellsAt(1, 2, 8, A(7));
      assert Term(1, 2, 7) == 34 by {
        TenthTerm(1, 2);
      }
    }
  }

  /** Without copy constraints the rows are not tied together: the forged
      table breaks the chain at row 7 and still passes the check with public
      output 90, which is not the tenth term. */
  lemma UnlinkedForgery()
    ensures var t := Forged();
      A(0) in t.cells && B(0) in t.cells && B(7) in t.cells && C(6) in t.cells &&
      t.cells[A(0)] == 1 && t.cells[B(0)] == 2 && t.cells[B(7)] != t.cells[C(6)] &&
      Term(1, 2, 9) != 90 && Satisfied(Configure(), t, 16, [[90]])
  {
    var t := Forged();
    forall r: nat | r < 16 && r in t.enabled
      ensures Eval(Configure().gate.poly, t, r) == Some(0)
    {
      RowsIff(8, r);
      ForgedRow(r);
      AddGateIff(t, r);
    }
    ForgedRow(7);
    LayoutRows(1, 2, 0);
    RowCellsAt(1, 2, 8, A(0));
    RowCellsAt(1, 2, 8, B(0));
    RowCellsAt(1, 2, 8, C(6));
    TenthTermFromOneTwo();
    assert Term(1, 2, 8) == 55 by {
      TenthTerm(1, 2);
    }
  }
}

/** The three-column circuit with its rows linked by copy constraints, as the
    comment at the top of src/fibonacci/example1.rs describes (a1 = b0,
    b1 = c0) and as enabling equality on a, b and c prepares for: each row
    after the first copies the previous row's b and c cells into its a and b
    cells. Unlike the circuit as written, the check then ties the public output
    to the first row's inputs. */
module Fibonacci1Linked {
  import opened Plonk
  import opened Assignment
  import opened Terms
  import opened Fibonacci1

  /** The copies recorded when rows 1 .. n are linked to their predecessors. */
  function LinkedCopies(n: nat): seq<Copy>
  {
    if n == 0 then [] else LinkedCopies(n - 1) + [Copy(B(n - 1), A(n)), Copy(C(n - 1), B(n))]
  }

  lemma {:induction false} LinkedCopiesHas(n: nat, i: nat)
    requires 1 <= i <= n
    ensures Copy(B(i - 1), A(i)) in LinkedCopies(n) && Copy(C(i - 1), B(i)) in LinkedCopies(n)
  {
    if i < n {
      LinkedCopiesHas(n - 1, i);
    }
  }

  /** The honest layout with the links recorded. */
  function LinkedLayout(a: int, b: int): Table
  {
    Layout(a, b).(copies := LinkedCopies(7))
  }

  /** Every link of the honest layout joins equal cells. */
  lemma {:induction false} LinkedCopiesHold(a: int, b: int, n: nat)
    requires n <= 7
    ensures forall c | c in LinkedCopies(n) :: CopyHolds(c, RowCells(a, b, 8))
  {
    if n > 0 {
      LinkedCopiesHold(a, b, n - 1);
      LayoutRows(a, b, n - 1);
    }
  }

  /** The linked layout is accepted exactly when instance row 0 is the tenth term. */
  lemma LinkedLayoutCheck(a: int, b: int, rows: nat, instance: seq<seq<int>>)
    requires rows >= 8
    ensures Check(Configure(), LinkedLayout(a, b), rows, instance) ==
      if |instance| > 0 && |instance[0]| > 0 && instance[0][0] == Term(a, b, 9) then []
      else [PublicInputMismatch(0, 0)]
  {
    RowCellsGatesHold(LinkedLayout(a, b), a, b, rows);
    LinkedCopiesHold(a, b, 7);
    LayoutRows(a, b, 7);
  }

  /** In any linked table the check accepts, row i holds terms i, i + 1 and
      i + 2 of the sequence that starts with row 0's a and b. */
  lemma {:induction false} LinkedRowsForced(t: Table, rows: nat, i: nat)
    requires rows >= 8 && i < 8
    requires forall r: nat | r < 8 :: r in t.enabled
    requires t.copies == LinkedCopies(7)
    requires GateHolds(Configure().gate, t, rows)
    requires forall c | c in t.copies :: CopyHolds(c, t.cells)
    ensures A(0) in t.cells && B(0) in t.cells && A(i) in t.cells && B(i) in t.cells && C(i) in t.cells
    ensures t.cells[A(i)] == Term(t.cells[A(0)], t.cells[B(0)], i)
    ensures t.cells[B(i)] == Term(t.cells[A(0)], t.cells[B(0)], i + 1)
    ensures t.cells[C(i)] == Term(t.cells[A(0)], t.cells[B(0)], i + 2)
  {
    assert 0 in t.enabled && i in t.enabled;
    AddGateIff(t, 0);
    AddGateIff(t, i);
    if i > 0 {
      LinkedRowsForced(t, rows, i - 1);
      LinkedCopiesHas(7, i);
      assert CopyHolds(Copy(B(i - 1), A(i)), t.cells);
      assert CopyHolds(Copy(C(i - 1), B(i)), t.cells);
    }
  }

  /** Soundness of the linked circuit: whatever witness the check accepts, the
      public output is the tenth term of the sequence its first row starts. */
  lemma LinkedSound(t: Table, rows: nat, instance: seq<seq<int>>)
    requires rows >= 8
    requires forall r: nat | r < 8 :: r in t.enabled
    requires t.copies == LinkedCopies(7) && t.bindings == [Binding(C(7), 0, 0)]
    requires Satisfied(Configure(), t, rows, instance)
    ensures A(0) in t.cells && B(0) in t.cells
    ensures |instance| > 0 && |instance[0]| > 0 && instance[0][0] == Term(t.cells[A(0)], t.cells[B(0)], 9)
  {
    LinkedRowsForced(t, rows, 7);
    assert Binding(C(7), 0, 0) in t.bindings;
  }

  /** In particular, starting from 1 and 2, public output 90 is always rejected. */
  lemma LinkedRejectsNinety(t: Table, rows: nat)
    requires rows >= 8
    requires forall r: nat | r < 8 :: r in t.enabled
    requires t.copies == LinkedCopies(7) && t.bindings == [Binding(C(7), 0, 0)]
    requires A(0) in t.cells && B(0) in t.cells && t.cells[A(0)] == 1 && t.cells[B(0)] == 2
    ensures !Satisfied(Configure(), t, rows, [[90]])
  {
    if Satisfied(Configure(), t, rows, [[90]]) {
      LinkedSound(t, rows, [[90]]);
      TenthTermFromOneTwo();
    }
  }

  /** The first row, from the circuit's inputs; returns its b and c cells. */
  method AssignFirstRow(lay: Layouter, a: Option<int>, b: Option<int>) returns (r: Result<(AssignedCell, AssignedCell)>)
    requires A(lay.used) !in lay.cells && B(lay.used) !in lay.cells && C(lay.used) !in lay.cells
    modifies lay
    ensures lay.copies == old(lay.copies) && lay.bindings == old(lay.bindings)
    ensures r == if old(lay.used) >= lay.usable then Err(NotEnoughRowsAvailable)
                 else if a.None? || b.None? then Err(Synthesis)
                 else Ok((AssignedCell(B(old(lay.used)), b), AssignedCell(C(old(lay.used)), Some(a.value + b.value))))
    ensures r.Ok? ==>
      lay.used == old(lay.used) + 1 &&
      lay.enabled == old(lay.enabled) + {old(lay.used)} &&
      lay.cells == old(lay.cells)[A(old(lay.used)) := a.value][B(old(lay.used)) := b.value]
                                 [C(old(lay.used)) := a.value + b.value]
  {
    var off := lay.used;
    var e := lay.EnableSelector(off);
    if e.Err? {
      return Err(e.error);
    }
    var cVal := if a.Some? && b.Some? then Some(a.value + b.value) else None;
    var aCell := lay.AssignAdvice(0, off, a);
    if aCell.Err? {
      return Err(aCell.error);
    }
    var bCell := lay.AssignAdvice(1, off, b);
    if bCell.Err? {
      return Err(bCell.error);
    }
    var cCell := lay.AssignAdvice(2, off, cVal);
    if cCell.Err? {
      assert false;
    }
    lay.EndRegion(1);
    return Ok((bCell.value, cCell.value));
  }

  /** A later row: copy the previous b into a and the previous c into b, and
      assign c = a + b; returns the new b and c cells. */
  method AssignNextRow(lay: Layouter, prevB: AssignedCell, prevC: AssignedCell) returns (r: Result<(AssignedCell, AssignedCell)>)
    requires A(lay.used) !in lay.cells && B(lay.used) !in lay.cells && C(lay.used) !in lay.cells
    requires prevB.cell.row < lay.usable && prevC.cell.row < lay.usable
    requires prevB.cell.column in lay.equality && prevC.cell.column in lay.equality
    requires Advice(0) in lay.equality && Advice(1) in lay.equality
    modifies lay
    ensures lay.bindings == old(lay.bindings)
    ensures r == if old(lay.used) >= lay.usable then Err(NotEnoughRowsAvailable)
                 else if prevB.value.None? || prevC.value.None? then Err(Synthesis)
                 else Ok((AssignedCell(B(old(lay.used)), prevC.value),
                          AssignedCell(C(old(lay.used)), Some(prevB.value.value + prevC.value.value))))
    ensures r.Ok? ==>
      lay.used == old(lay.used) + 1 &&
      lay.enabled == old(lay.enabled) + {old(lay.used)} &&
      lay.cells == old(lay.cells)[A(old(lay.used)) := prevB.value.value][B(old(lay.used)) := prevC.value.value]
                                 [C(old(lay.used)) := prevB.value.value + prevC.value.value] &&
      lay.copies == old(lay.copies) + [Copy(prevB.cell, A(old(lay.used))), Copy(prevC.cell, B(old(lay.used)))]
  {
    var off := lay.used;
    var e := lay.EnableSelector(off);
    if e.Err? {
      return Err(e.error);
    }
    var cVal := if prevB.value.Some? && prevC.value.Some? then Some(prevB.value.value + prevC.value.value) else None;
    var aCell := lay.CopyAdvice(prevB, 0, off);
    if aCell.Err? {
      return Err(aCell.error);
    }
    var bCell := lay.CopyAdvice(prevC, 1, off);
    if bCell.Err? {
      return Err(bCell.error);
    }
    var cCell := lay.AssignAdvice(2, off, cVal);
    if cCell.Err? {
      assert false;
    }
    lay.EndRegion(1);
    return Ok((bCell.value, cCell.value));
  }

  /** `synthesize` with linked rows: the same eight rows and binding as the
      circuit as written, plus the fourteen copies. */
  method SynthesizeLinked(lay: Layouter, a: Option<int>, b: Option<int>) returns (r: Result<()>)
    requires lay.Empty() && lay.equality == Configure().equality
    modifies lay
    ensures r == if a.None? || b.None? then Err(Synthesis)
                 else if lay.usable < 8 then Err(NotEnoughRowsAvailable)
                 else Ok(())
    ensures r.Ok? ==> lay.Frozen() == LinkedLayout(a.value, b.value) && lay.used == 8
  {
    var first := AssignFirstRow(lay, a, b);
    if first.Err? {
      return Err(first.error);
    }
    ghost var av, bv := a.value, b.value;
    var bCell, cCell := first.value.0, first.value.1;
    RowCellsStep(av, bv, 0);
    for i := 3 to 10
      invariant lay.used == i - 2 <= lay.usable
      invariant lay.cells == RowCells(av, bv, i - 2)
      invariant lay.enabled == Rows(i - 2)
      invariant lay.copies == LinkedCopies(i - 3) && lay.bindings == []
      invariant bCell == AssignedCell(B(i - 3), Some(Term(av, bv, i - 2)))
      invariant cCell == AssignedCell(C(i - 3), Some(Term(av, bv, i - 1)))
    {
      RowCellsFresh(av, bv, i - 2);
      var next := AssignNextRow(lay, bCell, cCell);
      if next.Err? {
        return Err(next.error);
      }
      bCell, cCell := next.value.0, next.value.1;
      RowCellsStep(av, bv, i - 2);
      Recurrence(av, bv, i - 2);
    }
    var e := ExposePublic(lay, cCell, 0);
    if e.Err? {
      assert false;
    }
    return Ok(());
  }

  /** The mock prover run on the linked circuit. */
  method MockRunLinked(k: nat, a: Option<int>, b: Option<int>, instance: seq<seq<int>>) returns (r: Result<seq<Failure>>)
    ensures r == if a.None? || b.None? then Err(Synthesis)
                 else if Pow2(k) < 8 then Err(NotEnoughRowsAvailable)
                 else Ok(Check(Configure(), LinkedLayout(a.value, b.value), Pow2(k), instance))
  {
    var cs := Configure();
    var lay := new Layouter(k, cs.equality);
    var s := SynthesizeLinked(lay, a, b);
    if s.Err? {
      return Err(s.error);
    }
    return Ok(Check(cs, lay.Frozen(), lay.usable, instance));
  }

  /** The two scenarios of example1.rs on the linked circuit: 89 accepted, 90
      rejected with one mismatch at instance row 0. */
  method TestLinked() returns (accepted: Result<seq<Failure>>, rejected: Result<seq<Failure>>)
    ensures accepted == Ok([]) && rejected == Ok([PublicInputMismatch(0, 0)])
  {
    var k, a, b, good, bad := 4, 1, 2, 89, 90;
    accepted := MockRunLinked(k, Some(a), Some(b), [[good]]);
    rejected := MockRunLinked(k, Some(a), Some(b), [[bad]]);
    TenthTermFromOneTwo();
    LinkedLayoutCheck(a, b, Pow2(k), [[good]]);
    LinkedLayoutCheck(a, b, Pow2(k), [[bad]]);
  }
}

/** The layouter the circuits write into during synthesis: it places regions
    one after another, writes advice cells and selector bits, and records copy
    constraints and public-input bindings. It plays the part the mock prover's
    assignment plays under a simple floor planner. */
module Assignment {
  import opened Plonk

  /** 2^k, the number of rows a circuit of size parameter `k` may use. */
  function Pow2(k: nat): (n: nat)
    ensures n >= 1
  {
    if k == 0 then 1 else 2 * Pow2(k - 1)
  }

  class Layouter {
    const usable: nat                 // rows the circuit may use
    const equality: set<Column>       // columns enabled for copy constraints
    var cells: map<Cell, int>         // assigned advice cells
    var enabled: set<nat>             // rows where the selector is on
    var copies: seq<Copy>
    var bindings: seq<Binding>
    var used: nat                     // rows taken by finished regions; the next region starts here

    /** Between regions: nothing has been written at or after the next free row. */
    ghost predicate Valid()
      reads this
    {
      (forall c | c in cells :: c.row < used) && (forall r | r in enabled :: r < used)
    }

    /** Nothing assigned yet, as the mock prover hands the layouter to `synthesize`
        (a table has at least one row). */
    ghost predicate Empty()
      reads this
    {
      usable >= 1 && cells == map[] && enabled == {} && copies == [] && bindings == [] && used == 0
    }

    /** The witness the check reads once synthesis is over. */
    function Frozen(): Table
      reads this
    {
      Table(cells, enabled, copies, bindings)
    }

    constructor (k: nat, equality: set<Column>)
      ensures usable == Pow2(k) && this.equality == equality
      ensures Empty() && Valid()
    {
      usable := Pow2(k);
      this.equality := equality;
      cells, enabled, copies, bindings, used := map[], {}, [], [], 0;
    }

    /** `selector.enable(region, offset)` at absolute row `row`. */
    method EnableSelector(row: nat) returns (r: Result<()>)
      modifies this`enabled
      ensures r == if row < usable then Ok(()) else Err(NotEnoughRowsAvailable)
      ensures enabled == if row < usable then old(enabled) + {row} else old(enabled)
    {
      if row >= usable {
        return Err(NotEnoughRowsAvailable);
      }
      enabled := enabled + {row};
      return Ok(());
    }

    /** `assign_advice` at absolute row `row`; a `None` value is the witness the
        caller could not supply. */
    method AssignAdvice(column: nat, row: nat, value: Option<int>) returns (r: Result<AssignedCell>)
      modifies this`cells
      ensures r == if row >= usable then Err(NotEnoughRowsAvailable)
                   else if value.None? || Cell(Advice(column), row) in old(cells) then Err(Synthesis)
                   else Ok(AssignedCell(Cell(Advice(column), row), value))
      ensures cells == if r.Ok? then old(cells)[Cell(Advice(column), row) := value.value] else old(cells)
    {
      var cell := Cell(Advice(column), row);
      if row >= usable {
        return Err(NotEnoughRowsAvailable);
      }
      if value.None? || cell in cells {
        return Err(Synthesis);
      }
      cells := cells[cell := value.value];
      return Ok(AssignedCell(cell, value));
    }

    /** `constrain_equal(left, right)`. */
    method ConstrainEqual(left: Cell, right: Cell) returns (r: Result<()>)
      modifies this`copies
      ensures r == if left.row >= usable || right.row >= usable then Err(NotEnoughRowsAvailable)
                   else if left.column !in equality || right.column !in equality then Err(ColumnNotInPermutation)
                   else Ok(())
      ensures copies == if r.Ok? then old(copies) + [Copy(left, right)] else old(copies)
    {
      if left.row >= usable || right.row >= usable {
        return Err(NotEnoughRowsAvailable);
      }
      if left.column !in equality || right.column !in equality {
        return Err(ColumnNotInPermutation);
      }
      copies := copies + [Copy(left, right)];
      return Ok(());
    }

    /** `copy_advice`: assign `from`'s value at (`column`, `row`) and constrain
        the new cell to equal `from`. */
    method CopyAdvice(from: AssignedCell, column: nat, row: nat) returns (r: Result<AssignedCell>)
      modifies this`cells, this`copies
      ensures r == if row >= usable then Err(NotEnoughRowsAvailable)
                   else if from.value.None? || Cell(Advice(column), row) in old(cells) then Err(Synthesis)
                   else if from.cell.row >= usable then Err(NotEnoughRowsAvailable)
                   else if from.cell.column !in equality || Advice(column) !in equality then Err(ColumnNotInPermutation)
                   else Ok(AssignedCell(Cell(Advice(column), row), from.value))
      ensures r.Ok? ==> cells == old(cells)[Cell(Advice(column), row) := from.value.value] &&
                        copies == old(copies) + [Copy(from.cell, Cell(Advice(column), row))]
    {
      r := AssignAdvice(column, row, from.value);
      if r.Err? {
        return;
      }
      var e := ConstrainEqual(from.cell, r.value.cell);
      if e.Err? {
        return Err(e.error);
      }
    }

    /** `constrain_instance(cell, column, row)`: bind `cell` to a public input. */
    method ConstrainInstance(cell: Cell, column: nat, row: nat) returns (r: Result<()>)
      modifies this`bindings
      ensures r == if cell.row >= usable || row >= usable then Err(NotEnoughRowsAvailable)
                   else if cell.column !in equality || Instance(column) !in equality then Err(ColumnNotInPermutation)
                   else Ok(())
      ensures bindings == if r.Ok? then old(bindings) + [Binding(cell, column, row)] else old(bindings)
    {
      if cell.row >= usable || row >= usable {
        return Err(NotEnoughRowsAvailable);
      }
      if cell.column !in equality || Instance(column) !in equality {
        return Err(ColumnNotInPermutation);
      }
      bindings := bindings + [Binding(cell, column, row)];
      return Ok(());
    }

    /** Close the region that started at `used` and spans `height` rows. */
    method EndRegion(height: nat)
      modifies this`used
      ensures used == old(used) + height
    {
      used := used + height;
    }
  }
}

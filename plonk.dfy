/** The PLONKish table the two Fibonacci circuits fill, the gate expressions
    they declare, and the decision a mock prover makes on a finished table:
    every enabled gate row evaluates to zero, every copy constraint joins equal
    assigned cells, and every public-input binding matches the instance vector.
    Field elements are modelled as unbounded integers. */
module Plonk {

  datatype Option<T> = None | Some(value: T)

  /** The errors synthesis can end with. */
  datatype Error =
    | Synthesis               // a witness value is missing, or a cell is assigned twice
    | NotEnoughRowsAvailable  // a row at or past the usable rows of the table
    | ColumnNotInPermutation  // a copy touches a column not enabled for equality

  datatype Result<T> = Ok(value: T) | Err(error: Error)

  /** Rust's `usize`. */
  newtype usize = x: int | 0 <= x < 0x1_0000_0000_0000_0000

  datatype Column = Advice(index: nat) | Instance(index: nat)

  datatype Cell = Cell(column: Column, row: nat)

  /** What `assign_advice` hands back: the cell and the value written into it. */
  datatype AssignedCell = AssignedCell(cell: Cell, value: Option<int>)

  /** A gate polynomial. `Query(c, rot)` reads advice column `c` at the row the
      gate is evaluated at plus `rot`; `Selector` is the circuit's one selector. */
  datatype Expr =
    | Selector
    | Query(column: nat, rotation: int)
    | Constant(c: int)
    | Sum(left: Expr, right: Expr)
    | Difference(left: Expr, right: Expr)
    | Product(left: Expr, right: Expr)

  datatype Gate = Gate(name: string, poly: Expr)

  /** What `configure` declares: the gate and the equality-enabled columns. */
  datatype ConstraintSystem = ConstraintSystem(gate: Gate, equality: set<Column>)

  /** `constrain_instance`: `cell` must equal row `row` of instance column `column`. */
  datatype Binding = Binding(cell: Cell, column: nat, row: nat)

  /** `constrain_equal`: two cells that must hold the same value. */
  datatype Copy = Copy(left: Cell, right: Cell)

  /** A finished witness: assigned advice cells (a cell missing from `cells` is
      unassigned), the rows where the selector is on, and the recorded constraints. */
  datatype Table = Table(cells: map<Cell, int>, enabled: set<nat>, copies: seq<Copy>, bindings: seq<Binding>)

  datatype Failure =
    | GateUnsatisfied(name: string, row: nat)
    | CopyUnsatisfied(left: Cell, right: Cell)
    | PublicInputMismatch(column: nat, row: nat)

  /** The value of `e` at `row`; `None` (incomplete) as soon as a query reads a
      row before the table or a cell that was never assigned. */
  function Eval(e: Expr, t: Table, row: nat): Option<int>
  {
    match e
    case Selector => Some(if row in t.enabled then 1 else 0)
    case Query(c, rot) =>
      if row + rot >= 0 && Cell(Advice(c), row + rot) in t.cells
      then Some(t.cells[Cell(Advice(c), row + rot)]) else None
    case Constant(v) => Some(v)
    case Sum(l, r) =>
      var x, y := Eval(l, t, row), Eval(r, t, row);
      if x.Some? && y.Some? then Some(x.value + y.value) else None
    case Difference(l, r) =>
      var x, y := Eval(l, t, row), Eval(r, t, row);
      if x.Some? && y.Some? then Some(x.value - y.value) else None
    case Product(l, r) =>
      var x, y := Eval(l, t, row), Eval(r, t, row);
      if x.Some? && y.Some? then Some(x.value * y.value) else None
  }

  /** The (advice column, absolute row) positions `e` queries when evaluated at `row`. */
  function Reads(e: Expr, row: nat): set<(nat, int)>
  {
    match e
    case Selector => {}
    case Query(c, rot) => {(c, row + rot)}
    case Constant(_) => {}
    case Sum(l, r) => Reads(l, row) + Reads(r, row)
    case Difference(l, r) => Reads(l, row) + Reads(r, row)
    case Product(l, r) => Reads(l, row) + Reads(r, row)
  }

  /** Every position in `qs` lies inside the table and is assigned in `t`. */
  predicate Assigned(qs: set<(nat, int)>, t: Table)
  {
    forall q | q in qs :: q.1 >= 0 && Cell(Advice(q.0), q.1) in t.cells
  }

  /** `t1` and `t2` hold the same cells, with the same values, at the positions `qs`. */
  predicate AgreeOn(qs: set<(nat, int)>, t1: Table, t2: Table)
  {
    forall q | q in qs && q.1 >= 0 ::
      (Cell(Advice(q.0), q.1) in t1.cells <==> Cell(Advice(q.0), q.1) in t2.cells) &&
      (Cell(Advice(q.0), q.1) in t1.cells ==> t1.cells[Cell(Advice(q.0), q.1)] == t2.cells[Cell(Advice(q.0), q.1)])
  }

  /** A gate evaluates completely exactly when every cell it queries is assigned. */
  lemma {:induction false} EvalCompleteIff(e: Expr, t: Table, row: nat)
    ensures Eval(e, t, row).Some? <==> Assigned(Reads(e, row), t)
  {
    match e
    case Selector =>
    case Query(c, rot) =>
    case Constant(_) =>
    case Sum(l, r) =>
      EvalCompleteIff(l, t, row);
      EvalCompleteIff(r, t, row);
    case Difference(l, r) =>
      EvalCompleteIff(l, t, row);
      EvalCompleteIff(r, t, row);
    case Product(l, r) =>
      EvalCompleteIff(l, t, row);
      EvalCompleteIff(r, t, row);
  }

  /** A gate's value at `row` depends only on the cells it queries and on the
      selector bit at `row`. */
  lemma {:induction false} EvalReadsOnly(e: Expr, t1: Table, t2: Table, row: nat)
    requires AgreeOn(Reads(e, row), t1, t2)
    requires row in t1.enabled <==> row in t2.enabled
    ensures Eval(e, t1, row) == Eval(e, t2, row)
  {
    match e
    case Selector =>
    case Query(c, rot) =>
      assert (c, row + rot) in Reads(e, row);
    case Constant(_) =>
    case Sum(l, r) =>
      EvalReadsOnly(l, t1, t2, row);
      EvalReadsOnly(r, t1, t2, row);
    case Difference(l, r) =>
      EvalReadsOnly(l, t1, t2, row);
      EvalReadsOnly(r, t1, t2, row);
    case Product(l, r) =>
      EvalReadsOnly(l, t1, t2, row);
      EvalReadsOnly(r, t1, t2, row);
  }

  /** The gate is zero at every enabled row below `rows`. */
  predicate GateHolds(g: Gate, t: Table, rows: nat)
  {
    forall r: nat | r < rows && r in t.enabled :: Eval(g.poly, t, r) == Some(0)
  }

  predicate CopyHolds(c: Copy, cells: map<Cell, int>)
  {
    c.left in cells && c.right in cells && cells[c.left] == cells[c.right]
  }

  predicate BindingHolds(b: Binding, cells: map<Cell, int>, instance: seq<seq<int>>)
  {
    b.column < |instance| && b.row < |instance[b.column]| &&
    b.cell in cells && cells[b.cell] == instance[b.column][b.row]
  }

  /** One `GateUnsatisfied` per enabled row below `rows` where the gate is not
      zero (or cannot be evaluated), in row order. */
  function GateFailures(g: Gate, t: Table, rows: nat): (fs: seq<Failure>)
    ensures forall f | f in fs ::
      f.GateUnsatisfied? && f.name == g.name && f.row < rows && f.row in t.enabled &&
      Eval(g.poly, t, f.row) != Some(0)
    ensures forall r: nat | r < rows && r in t.enabled && Eval(g.poly, t, r) != Some(0) ::
      GateUnsatisfied(g.name, r) in fs
    ensures fs == [] <==> GateHolds(g, t, rows)
  {
    if rows == 0 then []
    else
      GateFailures(g, t, rows - 1) +
      (if rows - 1 in t.enabled && Eval(g.poly, t, rows - 1) != Some(0)
       then [GateUnsatisfied(g.name, rows - 1)] else [])
  }

  /** One `CopyUnsatisfied` per recorded copy whose cells are unassigned or differ. */
  function CopyFailures(copies: seq<Copy>, cells: map<Cell, int>): (fs: seq<Failure>)
    ensures forall f | f in fs ::
      f.CopyUnsatisfied? && Copy(f.left, f.right) in copies && !CopyHolds(Copy(f.left, f.right), cells)
    ensures forall c | c in copies && !CopyHolds(c, cells) :: CopyUnsatisfied(c.left, c.right) in fs
    ensures fs == [] <==> forall c | c in copies :: CopyHolds(c, cells)
  {
    if copies == [] then []
    else
      var c := copies[|copies| - 1];
      CopyFailures(copies[..|copies| - 1], cells) +
      (if CopyHolds(c, cells) then [] else [CopyUnsatisfied(c.left, c.right)])
  }

  /** One `PublicInputMismatch` per binding whose cell is unassigned, whose
      instance row is missing, or whose value differs from the public input. */
  function BindingFailures(bindings: seq<Binding>, cells: map<Cell, int>, instance: seq<seq<int>>): (fs: seq<Failure>)
    ensures forall f | f in fs ::
      f.PublicInputMismatch? &&
      exists b | b in bindings :: b.column == f.column && b.row == f.row && !BindingHolds(b, cells, instance)
    ensures forall b | b in bindings && !BindingHolds(b, cells, instance) ::
      PublicInputMismatch(b.column, b.row) in fs
    ensures fs == [] <==> forall b | b in bindings :: BindingHolds(b, cells, instance)
  {
    if bindings == [] then []
    else
      var b := bindings[|bindings| - 1];
      var rest := BindingFailures(bindings[..|bindings| - 1], cells, instance);
      assert forall f | f in rest :: exists b' | b' in bindings ::
        b'.column == f.column && b'.row == f.row && !BindingHolds(b', cells, instance) by {
        forall f | f in rest
          ensures exists b' | b' in bindings ::
            b'.column == f.column && b'.row == f.row && !BindingHolds(b', cells, instance)
        {
          var b' :| b' in bindings[..|bindings| - 1] && b'.column == f.column && b'.row == f.row &&
            !BindingHolds(b', cells, instance);
          assert b' in bindings;
        }
      }
      rest + (if BindingHolds(b, cells, instance) then [] else [PublicInputMismatch(b.column, b.row)])
  }

  /** The mock prover's verdict on a finished table with `rows` usable rows:
      every failure, gates first, then copies, then public inputs. */
  function Check(cs: ConstraintSystem, t: Table, rows: nat, instance: seq<seq<int>>): (fs: seq<Failure>)
    ensures fs == [] <==>
      GateHolds(cs.gate, t, rows) &&
      (forall c | c in t.copies :: CopyHolds(c, t.cells)) &&
      (forall b | b in t.bindings :: BindingHolds(b, t.cells, instance))
  {
    GateFailures(cs.gate, t, rows) + CopyFailures(t.copies, t.cells) + BindingFailures(t.bindings, t.cells, instance)
  }

  /** `assert_satisfied` passes. */
  predicate Satisfied(cs: ConstraintSystem, t: Table, rows: nat, instance: seq<seq<int>>)
  {
    Check(cs, t, rows, instance) == []
  }
}

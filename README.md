# Fibonacci circuits in halo2: witness layout and mock-prover check

This project models the two Fibonacci example circuits of the repository,
`src/fibonacci/example1.rs` and `src/fibonacci/example2.rs`. For each one it
models the witness table that synthesis fills, written the way the circuit
code fills it. It also models the conditions a mock prover checks on the
finished table:

- the "add" gate is zero on every row where the selector is on;
- every copy constraint joins two equal assigned cells;
- every public-input binding matches the instance vector.

The modules:

- `Plonk` (plonk.dfy): the table, gate expressions, evaluation, and the
  mock prover's list of failures.
  - `Check` lists gate failures first, then copy failures, then binding
    failures.
  - `Satisfied` is `assert_satisfied`: the list is empty.
- `Assignment` (assignment.dfy): the `Layouter` class the circuits write
  into. It places regions one after another. It enables selector bits,
  assigns advice cells, and records copy constraints and instance
  bindings. Each of these fails with the error halo2 reports.
- `Terms` (terms.dfy): the sequence t(0) = a, t(1) = b,
  t(n) = t(n-1) + t(n-2). Its tenth term is 21a + 34b, which is 89 for
  a = 1 and b = 2.
- `Fibonacci1` (fibonacci1.dfy): the three-column circuit of example1.
  - `assign_row` writes one row per region: a = prev_b, b = prev_c and
    c = prev_b + prev_c.
  - `synthesize` chains eight such rows and binds the last c to instance
    row 0.
- `Fibonacci1Linked` (fibonacci1_linked.dfy): the same circuit with the
  row-to-row copy constraints that the comment at the top of example1 says
  it has. This is the corrected half of the first finding below.
- `Fibonacci2` (fibonacci2.dfy): the one-column circuit of example2.
  - `assign` fills one region of `iter_num` rows in a loop over `usize`
    rows. The selector is on at rows 0 and 1, and at every loop row below
    `iter_num - 2`.
  - The subtraction `iter_num - 2` is evaluated on `usize`. The verifier
    checks that it cannot underflow: the loop only runs when
    `iter_num >= 3`.

The model makes these choices:

- Field elements are unbounded integers.
- Missing witnesses are `None`.
- A table of size parameter `k` has 2^k usable rows.
- `MockRun` returns `Err` when synthesis fails, where `MockProver::run`
  would fail. Otherwise it returns the list of failures the check finds.

## Model

| member | source | states |
|---|---|---|
| Plonk.EvalCompleteIff | src/fibonacci/example1.rs:50-56 | a gate expression evaluates to a value exactly when every cell it queries is assigned |
| Plonk.EvalReadsOnly | src/fibonacci/example2.rs:45-51 | a gate's value at a row depends only on the cells it queries there and on the selector bit |
| Plonk.GateFailures | src/fibonacci/example1.rs:178-179 | one `GateUnsatisfied` for each enabled row below the usable rows where the gate is not zero; empty exactly when the gate holds on all of them |
| Plonk.CopyFailures | src/fibonacci/example1.rs:178-179 | one `CopyUnsatisfied` for each copy whose cells are unassigned or differ; empty exactly when every copy holds |
| Plonk.BindingFailures | src/fibonacci/example1.rs:178-179 | one `PublicInputMismatch` for each binding whose cell or instance row is missing or whose values differ; empty exactly when every binding holds |
| Plonk.Check | src/fibonacci/example1.rs:178-179 | `assert_satisfied` passes exactly when the gate, every copy and every binding hold |
| Assignment.Pow2 | src/fibonacci/example1.rs:166 | a table of size parameter k has 2^k rows, at least one |
| Assignment.Layouter.constructor | src/fibonacci/example1.rs:178 | the layouter starts empty, with 2^k usable rows and the equality-enabled columns of `configure` |
| Assignment.Layouter.EnableSelector | src/fibonacci/example1.rs:78 | enabling the selector past the usable rows fails with `NotEnoughRowsAvailable`; otherwise the row joins the enabled set |
| Assignment.Layouter.AssignAdvice | src/fibonacci/example1.rs:81-98 | row past the usable rows gives `NotEnoughRowsAvailable`; a missing value or an already assigned cell gives `Synthesis`; otherwise exactly that cell is written |
| Assignment.Layouter.ConstrainEqual | src/fibonacci/example1.rs:10-12 | a copy between rows past the usable rows or columns not enabled for equality fails; otherwise it is recorded |
| Assignment.Layouter.CopyAdvice | src/fibonacci/example1.rs:10-12 | assigns the source cell's value at the new cell and records the copy between them, with the errors of both steps in order |
| Assignment.Layouter.ConstrainInstance | src/fibonacci/example1.rs:111 | binding a cell to an instance row fails past the usable rows or off the permutation; otherwise the binding is recorded |
| Assignment.Layouter.EndRegion | src/fibonacci/example1.rs:75-102 | the next region starts right after the one just filled |
| Terms.TenthTerm | src/fibonacci/example1.rs:145-152 | the last c of example1 and row 9 of example2 hold 21a + 34b |
| Terms.TenthTermFromOneTwo | src/fibonacci/example1.rs:168-170 | starting from 1 and 2 that value is 89 |
| Fibonacci1.AddGateReadsOwnRow | src/fibonacci/example1.rs:50-56 | the gate reads columns a, b and c at its own row and nowhere else |
| Fibonacci1.AddGateIff | src/fibonacci/example1.rs:50-56 | at an enabled row the gate is zero exactly when a, b and c are assigned and a + b = c |
| Fibonacci1.RowCellsAt | src/fibonacci/example1.rs:145-152 | after n rows exactly columns a, b and c of rows 0..n-1 are assigned, and cell (column j, row i) holds term i + j |
| Fibonacci1.RowsIff | src/fibonacci/example1.rs:78 | the selector is on exactly at rows 0..n-1, row 0 of each one-row region |
| Fibonacci1.LayoutRows | src/fibonacci/example1.rs:145-152 | in the eight-row layout every row has c = a + b, row i+1 has a = b of row i and b = c of row i, and the bound cell c(7) holds t(9) |
| Fibonacci1.RowCellsGatesHold | src/fibonacci/example1.rs:50-56 | the gate is zero on every enabled row of the layout |
| Fibonacci1.LayoutCheck | src/fibonacci/example1.rs:154 | the check on the layout reports nothing when instance row 0 is t(9), and one mismatch at instance row 0 otherwise |
| Fibonacci1.AssignRow | src/fibonacci/example1.rs:65-103 | one region of one row at the next free row: selector on, a = prev_b, b = prev_c, c = prev_b + prev_c; a missing input gives `Synthesis`; returns the c cell |
| Fibonacci1.ExposePublic | src/fibonacci/example1.rs:105-112 | binds the cell to the given instance row, with the layouter's errors |
| Fibonacci1.Synthesize | src/fibonacci/example1.rs:138-157 | a missing input gives `Synthesis`, fewer than 8 rows gives `NotEnoughRowsAvailable`; otherwise the table is exactly the eight-row layout with its one binding |
| Fibonacci1.MockRun | src/fibonacci/example1.rs:178 | a run on 2^k rows either fails synthesis as above or returns the check's failures on the layout |
| Fibonacci1.TestExample1 | src/fibonacci/example1.rs:165-180 | k = 4, inputs 1 and 2, public input 89: no failures |
| Fibonacci1.TestExample1Failed | src/fibonacci/example1.rs:183-198 | the same with public input 90: exactly one mismatch at instance row 0 |
| Fibonacci1.ForgedRow | src/fibonacci/example1.rs:81-98 | the forged table has a + b = c on every row |
| Fibonacci1.UnlinkedForgery | src/fibonacci/example1.rs:10-12 | a table starting 1, 2 whose row 7 does not continue row 6 passes the check with public output 90 |
| Fibonacci1Linked.LinkedCopiesHas | src/fibonacci/example1.rs:10-12 | the copies join b of each row to a of the next and c of each row to b of the next |
| Fibonacci1Linked.LinkedCopiesHold | src/fibonacci/example1.rs:10-12 | all those copies hold on the honest layout |
| Fibonacci1Linked.LinkedLayoutCheck | src/fibonacci/example1.rs:154 | the check on the linked layout reports nothing when instance row 0 is t(9), and one mismatch otherwise |
| Fibonacci1Linked.LinkedRowsForced | src/fibonacci/example1.rs:10-12 | in any accepted linked table, row i holds terms i, i+1 and i+2 of the sequence its first row starts |
| Fibonacci1Linked.LinkedSound | src/fibonacci/example1.rs:145-154 | any linked table the check accepts has public output t(9) of its own first two cells |
| Fibonacci1Linked.LinkedRejectsNinety | src/fibonacci/example1.rs:183-198 | no linked table starting 1, 2 is accepted with public input 90 |
| Fibonacci1Linked.AssignFirstRow | src/fibonacci/example1.rs:65-103 | the first row as `assign_row` writes it, returning its b and c cells |
| Fibonacci1Linked.AssignNextRow | src/fibonacci/example1.rs:10-12 | a later row whose a and b are copied from the previous b and c cells, with c their sum |
| Fibonacci1Linked.SynthesizeLinked | src/fibonacci/example1.rs:138-157 | synthesis with copies fails as `synthesize` does, and otherwise yields exactly the linked layout |
| Fibonacci1Linked.MockRunLinked | src/fibonacci/example1.rs:178 | a run of the linked circuit either fails synthesis or returns the check's failures on the linked layout |
| Fibonacci1Linked.TestLinked | src/fibonacci/example1.rs:165-198 | the linked circuit accepts 89 and rejects 90 |
| Fibonacci2.AddGateReads | src/fibonacci/example2.rs:45-51 | the gate at row r reads rows r, r+1 and r+2 of the advice column |
| Fibonacci2.AddGateIff | src/fibonacci/example2.rs:45-51 | at an enabled row the gate is zero exactly when the three cells are assigned and the third is the sum of the first two |
| Fibonacci2.LastRowIsLast | src/fibonacci/example2.rs:82-105 | the returned cell is row iter_num - 1 when iter_num >= 3 and row 1 otherwise, which is the last row of the region |
| Fibonacci2.ColumnCellsAt | src/fibonacci/example2.rs:76-103 | after m rows the region's cells are exactly rows off..off+m-1 of the advice column, row off + r holding term r |
| Fibonacci2.EnabledBelowIff | src/fibonacci/example2.rs:89-93 | after the loop reaches row `upto`, the selector is on at rows 0 and 1 and at each row r < upto with r < iter_num - 2 |
| Fibonacci2.ScheduleIff | src/fibonacci/example2.rs:70-71 | the selector is on exactly on rows [0, iter_num - 2) when iter_num >= 4, and on rows 0 and 1 otherwise |
| Fibonacci2.ReadsInsideRegionIff | src/fibonacci/example2.rs:89-93 | every gate read of every enabled row stays inside the region if and only if iter_num >= 4 |
| Fibonacci2.LayoutColumn | src/fibonacci/example2.rs:89-103 | rows 0 and 1 hold init_a and init_b, and every later row is the sum of the two before it |
| Fibonacci2.LayoutGatesHold | src/fibonacci/example2.rs:45-51 | with iter_num >= 4 the gate is zero on every enabled row |
| Fibonacci2.LayoutCheck | src/fibonacci/example2.rs:146-147 | with iter_num >= 4 the check reports nothing when instance row 0 is term iter_num - 1, and one mismatch otherwise; with iter_num < 4 the gate fails at row 1 |
| Fibonacci2.ColumnForced | src/fibonacci/example2.rs:89-103 | in any table the check accepts with this selector, row i holds term i of the sequence its rows 0 and 1 start |
| Fibonacci2.Sound | src/fibonacci/example2.rs:146-147 | any such accepted table has public output term iter_num - 1 of its own first two cells |
| Fibonacci2.AssignStep | src/fibonacci/example2.rs:89-103 | one loop row: selector on only below iter_num - 2, then the cell a + b, with `Synthesis` when a or b is missing |
| Fibonacci2.AssignFirstRows | src/fibonacci/example2.rs:70-87 | selector on rows 0 and 1, then init_a and init_b into cells 0 and 1 |
| Fibonacci2.AssignLoop | src/fibonacci/example2.rs:89-105 | the loop leaves rows 0..iter_num-1 holding terms 0..iter_num-1 and returns the last of them |
| Fibonacci2.Assign | src/fibonacci/example2.rs:60-108 | the region at the next free row: errors in the source's order; otherwise cells, selector schedule and returned cell as above, and the next region starts after it |
| Fibonacci2.ExposePublic | src/fibonacci/example2.rs:110-117 | binds the cell to the given instance row, with the layouter's errors |
| Fibonacci2.Synthesize | src/fibonacci/example2.rs:140-151 | a missing input gives `Synthesis`, fewer than 10 rows gives `NotEnoughRowsAvailable`; otherwise the table is exactly the ten-row layout with its one binding |
| Fibonacci2.MockRun | src/fibonacci/example2.rs:171 | a run on 2^k rows either fails synthesis as above or returns the check's failures on the layout |
| Fibonacci2.TestExample2 | src/fibonacci/example2.rs:158-191 | with k = 2 as written, both tests end in `NotEnoughRowsAvailable` |
| Fibonacci2.TestExample2AtK4 | src/fibonacci/example2.rs:158-191 | with k = 4, public input 89 gives no failures and 90 gives one mismatch at instance row 0 |

## Left out

- The internals of `halo2_proofs` are not part of this model: `ConstraintSystem`, `SimpleFloorPlanner`, `MockProver`, the permutation argument and `Rotation`. Each is modelled only as far as these circuits use it.
- Blinding rows are left out: all 2^k rows of a table count as usable.
- Pasta `Fp` arithmetic is modelled on unbounded integers. The values here never reach the prime.
- Copy constraints are checked pair by pair. The permutation argument checks equivalence classes instead, which gives the same verdict on values.
- Only the one selector and the one gate of each circuit are modelled, not general constraint systems.
- `layouter.namespace(...)` labels and the annotation closures are left out. They only serve diagnostics.
- `construct`, `PhantomData`, `without_witnesses` and both `configure` methods of `MyCircuit` are left out. They are boilerplate around `FiboChip::configure`, which is modelled as `Configure`.
- The `dev-graph` plotting tests are left out. They only draw the layout.
- A region is placed at the next free row and ends after its last row. That is what the floor planner does for these circuits, but its general placement is not modelled.
- Writing a cell twice is a `Synthesis` error here. The circuits never do it.
- Assignment.Layouter.CopyAdvice: after a failed copy the cell state is left unstated.
- Fibonacci2.LayoutCheck: for iter_num < 4 it states only the gate failure at row 1, not the whole failure list.

## Findings

| source | as written | input that shows it | evidently intended | confidence | as-written member | corrected member |
|---|---|---|---|---|---|---|
| src/fibonacci/example1.rs:10-12, 81-98, 145-152 | rows are written with `assign_advice` and the previous b and c are passed as plain values, so nothing ties one row to the next even though the comment says a1 = b0 and b1 = c0 are copied | rows 0 to 6 honest from 1, 2; row 7 with a = 34, b = 56, c = 90; public input 90 is accepted | copy b and c of each row into a and b of the next, so that the only accepted output is t(9) | not executed | Fibonacci1.UnlinkedForgery | Fibonacci1Linked.LinkedSound |
| src/fibonacci/example2.rs:159, 177 | both tests use k = 2, a table of 4 rows, for a region of 10 rows, so `MockProver::run(...).unwrap()` fails before any check | k = 2, inputs 1 and 2, public input 89 | k = 4, as the layout plot at line 208 uses, which accepts 89 and rejects 90 | not executed | Fibonacci2.TestExample2 | Fibonacci2.TestExample2AtK4 |

Also, `test_example1_failed` (src/fibonacci/example1.rs:183-198) calls
`assert_satisfied` on public input 90, but the model shows this input is
rejected with one mismatch at instance row 0. Under the test's name, the
rejection is what is intended, so the test would need to expect failure.
`Fibonacci1.TestExample1Failed` states the rejection.

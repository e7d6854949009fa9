/** Cells and cell slices. A cell is a node of raw bits and references to child
    cells; it is a value, compared by contents. A slice is a read window over
    one cell's bits and references. */
module Cells {

  datatype Cell = Cell(bits: seq<bool>, refs: seq<Cell>)

  datatype SliceView = SliceView(cell: Cell, bitFrom: nat, bitTo: nat, refFrom: nat, refTo: nat)

  /** `vm::CellSlice`: a window that lies inside its cell. */
  type CellSlice = s: SliceView
    | s.bitFrom <= s.bitTo <= |s.cell.bits| && s.refFrom <= s.refTo <= |s.cell.refs|
    witness SliceView(Cell([], []), 0, 0, 0, 0)

  /** `vm::load_cell_slice_ref`: the window over all of a cell. */
  function FullSlice(c: Cell): (s: CellSlice)
    ensures s.cell == c
    ensures s.bitFrom == 0 && s.bitTo == |c.bits| && s.refFrom == 0 && s.refTo == |c.refs|
  {
    SliceView(c, 0, |c.bits|, 0, |c.refs|)
  }

  predicate IsFull(s: CellSlice)
  {
    s == FullSlice(s.cell)
  }

  /** `CellBuilder().append_cellslice(s).finalize()`: a fresh cell holding what the
      window still shows. */
  function Materialize(s: CellSlice): (c: Cell)
    ensures |c.bits| == s.bitTo - s.bitFrom && |c.refs| == s.refTo - s.refFrom
    ensures forall i :: 0 <= i < |c.bits| ==> c.bits[i] == s.cell.bits[s.bitFrom + i]
    ensures forall i :: 0 <= i < |c.refs| ==> c.refs[i] == s.cell.refs[s.refFrom + i]
  {
    Cell(s.cell.bits[s.bitFrom..s.bitTo], s.cell.refs[s.refFrom..s.refTo])
  }

  /** Loading a cell as a slice and materialising it gives the cell back, and a
      full window is the only kind `FullSlice` of a materialised window reproduces. */
  lemma MaterializeFull(c: Cell, s: CellSlice)
    ensures Materialize(FullSlice(c)) == c
    ensures FullSlice(Materialize(s)) == s <==> IsFull(s)
  {
    assert c.bits[0..|c.bits|] == c.bits;
    assert c.refs[0..|c.refs|] == c.refs;
    if IsFull(s) {
      assert s.cell.bits[0..|s.cell.bits|] == s.cell.bits;
      assert s.cell.refs[0..|s.cell.refs|] == s.cell.refs;
    }
  }
}

/** The storage of a bank: for each column a linked list of the rows written so far, newest
    list nodes first. */
module Banks {
  import opened Configuration
  import opened Packets
  import opened MemoryModel

  datatype RowEntry = RowEntry(row: nat, data: Word)

  type RowLists = seq<seq<RowEntry>>

  /** The first node of a list for a row, from i on, or the length of the list. */
  function FirstRow(list: seq<RowEntry>, row: nat, i: nat): (k: nat)
    requires i <= |list|
    ensures i <= k <= |list|
    ensures k < |list| ==> list[k].row == row
    ensures forall j :: i <= j < k ==> list[j].row != row
    decreases |list| - i
  {
    if i == |list| || list[i].row == row then i else FirstRow(list, row, i + 1)
  }

  function Cells(rows: RowLists): set<Cell> {
    set i, j | 0 <= i < |rows| && 0 <= j < |rows[i]| :: Cell(rows[i][j].row, i)
  }

  /** The memory a bank's lists stand for. */
  function Contents(rows: RowLists): map<Cell, Word> {
    map cell | cell in Cells(rows) ::
      var list := rows[cell.col];
      var k := FirstRow(list, cell.row, 0);
      if k < |list| then list[k].data else Tracer
  }

  lemma {:induction false} InCells(rows: RowLists, cell: Cell)
    ensures cell in Cells(rows) <==> cell.col < |rows| && FirstRow(rows[cell.col], cell.row, 0) < |rows[cell.col]|
  {
    if cell.col < |rows| && FirstRow(rows[cell.col], cell.row, 0) < |rows[cell.col]| {
      var k := FirstRow(rows[cell.col], cell.row, 0);
      assert Cell(rows[cell.col][k].row, cell.col) == cell;
    }
  }

  method SearchForRow(row: nat, list: seq<RowEntry>) returns (k: nat)
    ensures k == FirstRow(list, row, 0)
  {
    k := 0;
    while k < |list| && list[k].row != row
      invariant k <= |list|
      invariant FirstRow(list, row, 0) == FirstRow(list, row, k)
    {
      k := k + 1;
    }
  }

  /** The data of a cell, or the tracer value if its row was never written. */
  method ReadBank(rows: RowLists, p: BusPacket) returns (d: Word)
    requires p.col < |rows|
    ensures d == ReadCell(Contents(rows), CellOf(p))
  {
    InCells(rows, CellOf(p));
    var k := SearchForRow(p.row, rows[p.col]);
    d := if k == |rows[p.col]| then Tracer else rows[p.col][k].data;
  }

  /** The list after a write: a new head if the row is new, the old node overwritten if not. */
  function Written(list: seq<RowEntry>, row: nat, d: Word): seq<RowEntry> {
    var k := FirstRow(list, row, 0);
    if k == |list| then [RowEntry(row, d)] + list else list[k := RowEntry(row, d)]
  }

  lemma {:induction false} FirstRowUnique(list: seq<RowEntry>, row: nat, k: nat)
    requires k <= |list| && (k < |list| ==> list[k].row == row)
    requires forall j :: 0 <= j < k ==> list[j].row != row
    ensures FirstRow(list, row, 0) == k
  {
  }

  lemma {:induction false} WrittenFirst(list: seq<RowEntry>, row: nat, d: Word, other: nat)
    ensures var list' := Written(list, row, d);
            var k' := FirstRow(list', other, 0);
            var k := FirstRow(list, other, 0);
            && (other == row ==> k' < |list'| && list'[k'].data == d)
            && (other != row ==> (k' < |list'| <==> k < |list|) && (k < |list| ==> list'[k'].data == list[k].data))
  {
    var list' := Written(list, row, d);
    var n := FirstRow(list, row, 0);
    var k := FirstRow(list, other, 0);
    FirstRowUnique(list', other,
                   if other == row then (if n == |list| then 0 else n) else (if n == |list| then k + 1 else k));
  }

  /** A write changes exactly its own cell. */
  lemma {:induction false} WriteContents(rows: RowLists, row: nat, col: nat, d: Word)
    requires col < |rows|
    ensures Contents(rows[col := Written(rows[col], row, d)]) == Contents(rows)[Cell(row, col) := d]
  {
    var rows' := rows[col := Written(rows[col], row, d)];
    var m, m' := Contents(rows)[Cell(row, col) := d], Contents(rows');
    forall cell ensures (cell in m' <==> cell in m) && (cell in m ==> m'[cell] == m[cell]) {
      InCells(rows, cell);
      InCells(rows', cell);
      if cell.col == col { WrittenFirst(rows[col], row, d, cell.row); }
    }
  }

  /** Stores a data packet; fails on a column the bank does not have. */
  method WriteBank(c: Config, rows: RowLists, p: BusPacket) returns (ok: bool, rows': RowLists)
    requires |rows| == c.numCols
    ensures ok == (p.col < c.numCols)
    ensures |rows'| == |rows|
    ensures ok ==> Contents(rows') == Contents(rows)[CellOf(p) := p.data]
    ensures !ok ==> rows' == rows
  {
    ok, rows' := p.col < c.numCols, rows;
    if ok {
      WriteContents(rows, p.row, p.col, p.data);
      var list := rows[p.col];
      var k := SearchForRow(p.row, list);
      if k == |list| {
        rows' := rows[p.col := [RowEntry(p.row, p.data)] + list];
      } else {
        rows' := rows[p.col := list[k := list[k].(data := p.data)]];
      }
    }
  }
}

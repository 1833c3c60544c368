/** The columnar tables of the store: cells, rows, and batches of equally long columns. */
module Columns {
  import opened Wrappers

  /** One cell; a missing value is a null. */
  datatype Cell =
    | Text(text: Option<string>)
    | Number(number: Option<int>)
    | Flag(flag: bool)
    | List(list: Option<seq<string>>)

  datatype Kind = RequiredText | OptionalText | OptionalNumber | Bool | OptionalList

  const ID: nat := 0
  const TITLE: nat := 1
  const ITEM_TYPE: nat := 2
  const STATUS: nat := 3
  const PRIORITY: nat := 4
  const CREATED: nat := 5
  const ASSIGNEE: nat := 6
  const BOARD: nat := 7
  const TAGS: nat := 8
  const RELATED: nat := 9
  const DEPENDS_ON: nat := 10
  const BODY: nat := 11
  const BODY_HASH: nat := 12
  const DELETED: nat := 13
  const RESOLUTION: nat := 14
  const CLOSED_BY: nat := 15
  const UPDATED_AT: nat := 16
  const PRIORITY_RANK: nat := 17
  const ATTEMPT_COUNT: nat := 18
  const WIDTH: nat := 19

  function KindOf(col: nat): Kind {
    if col in {ID, TITLE, ITEM_TYPE, STATUS, BOARD} then RequiredText
    else if col in {PRIORITY, ASSIGNEE, BODY, BODY_HASH, RESOLUTION, CLOSED_BY} then OptionalText
    else if col == DELETED then Bool
    else if col in {TAGS, RELATED, DEPENDS_ON} then OptionalList
    else OptionalNumber
  }

  predicate Fits(col: nat, c: Cell) {
    match KindOf(col)
    case RequiredText => c.Text? && c.text.Some?
    case OptionalText => c.Text?
    case OptionalNumber => c.Number?
    case Bool => c.Flag?
    case OptionalList => c.List?
  }

  // ------------------------------------------------------------------ rows

  predicate IsRow(r: seq<Cell>) {
    |r| == WIDTH && forall c :: 0 <= c < WIDTH ==> Fits(c, r[c])
  }

  const BLANK: seq<Cell> := seq(WIDTH, c requires 0 <= c < WIDTH =>
                              match KindOf(c)
                              case RequiredText => Text(Some(""))
                              case OptionalText => Text(None)
                              case OptionalNumber => Number(None)
                              case Bool => Flag(true)
                              case OptionalList => List(None))

  type Row = r: seq<Cell> | IsRow(r) witness BLANK

  function IdOf(r: Row): Id {
    r[ID].text.value
  }

  function StatusOf(r: Row): string {
    r[STATUS].text.value
  }

  predicate IsDeleted(r: Row) {
    r[DELETED].flag
  }

  /** A list cell read as a list; null reads as empty. */
  function ListOf(r: Row, col: nat): seq<string>
    requires KindOf(col) == OptionalList && col < WIDTH
  {
    match r[col].list
    case Some(l) => l
    case None => []
  }

  function With(r: Row, col: nat, c: Cell): Row
    requires col < WIDTH && Fits(col, c)
  {
    r[col := c]
  }

  // --------------------------------------------------------------- batches

  /** Column-major storage: `columns[c][r]` is the cell of row `r` in column `c`. */
  datatype Batch = Batch(rows: nat, columns: seq<seq<Cell>>)

  ghost predicate ValidBatch(b: Batch) {
    && |b.columns| == WIDTH
    && (forall c :: 0 <= c < WIDTH ==> |b.columns[c]| == b.rows)
    && forall c, r :: 0 <= c < WIDTH && 0 <= r < b.rows ==> Fits(c, b.columns[c][r])
  }

  ghost function RowAt(b: Batch, r: nat): Row
    requires ValidBatch(b) && r < b.rows
  {
    seq(WIDTH, c requires 0 <= c < WIDTH => b.columns[c][r])
  }

  ghost function RowsOf(b: Batch): seq<Row>
    requires ValidBatch(b)
  {
    seq(b.rows, r requires 0 <= r < b.rows => RowAt(b, r))
  }

  ghost predicate ValidBatches(bs: seq<Batch>) {
    forall b :: 0 <= b < |bs| ==> ValidBatch(bs[b])
  }

  /** All rows of a table, batch after batch. */
  ghost function AllRows(bs: seq<Batch>): seq<Row>
    requires ValidBatches(bs)
  {
    if bs == [] then [] else AllRows(bs[..|bs| - 1]) + RowsOf(bs[|bs| - 1])
  }

  /** Position of the first row of batch `b` among all rows. */
  ghost function Offset(bs: seq<Batch>, b: nat): nat
    requires ValidBatches(bs) && b <= |bs|
  {
    |AllRows(bs[..b])|
  }

  lemma {:induction false} RowPosition(bs: seq<Batch>, b: nat, r: nat)
    requires ValidBatches(bs) && b < |bs| && r < bs[b].rows
    ensures Offset(bs, b) + r < |AllRows(bs)| && AllRows(bs)[Offset(bs, b) + r] == RowAt(bs[b], r)
  {
    var bs' := bs[..|bs| - 1];
    if b == |bs'| {
      assert bs[..b] == bs';
    } else {
      assert bs'[..b] == bs[..b];
      RowPosition(bs', b, r);
    }
  }

  lemma {:induction false} AllRowsUpdate(bs: seq<Batch>, b: nat, batch: Batch, row: nat, r: Row)
    requires ValidBatches(bs) && b < |bs| && row < bs[b].rows && ValidBatch(batch)
    requires RowsOf(batch) == RowsOf(bs[b])[row := r]
    ensures ValidBatches(bs[b := batch])
    ensures Offset(bs, b) + row < |AllRows(bs)|
    ensures AllRows(bs[b := batch]) == AllRows(bs)[Offset(bs, b) + row := r]
  {
    var bs', last := bs[..|bs| - 1], bs[|bs| - 1];
    if b == |bs'| {
      assert bs[..b] == bs' && bs[b := batch][..|bs| - 1] == bs';
    } else {
      assert bs'[..b] == bs[..b];
      assert bs[b := batch][..|bs| - 1] == bs'[b := batch];
      AllRowsUpdate(bs', b, batch, row, r);
    }
  }

  /** One cell replaced in column storage is one cell replaced in one row. */
  ghost function Replaced(b: Batch, row: nat, col: nat, c: Cell): Batch
    requires ValidBatch(b) && row < b.rows && col < WIDTH
  {
    b.(columns := b.columns[col := b.columns[col][row := c]])
  }

  lemma ReplacedRows(b: Batch, row: nat, col: nat, c: Cell)
    requires ValidBatch(b) && row < b.rows && col < WIDTH && Fits(col, c)
    ensures ValidBatch(Replaced(b, row, col, c))
    ensures RowsOf(Replaced(b, row, col, c)) == RowsOf(b)[row := With(RowAt(b, row), col, c)]
  {
    var b' := Replaced(b, row, col, c);
    forall r | 0 <= r < b.rows
      ensures RowAt(b', r) == if r == row then With(RowAt(b, row), col, c) else RowAt(b, r)
    {
    }
  }

  lemma ReplacedInTable(bs: seq<Batch>, b: nat, row: nat, col: nat, c: Cell)
    requires ValidBatches(bs) && b < |bs| && row < bs[b].rows && col < WIDTH && Fits(col, c)
    ensures ValidBatch(Replaced(bs[b], row, col, c)) && ValidBatches(bs[b := Replaced(bs[b], row, col, c)])
    ensures Offset(bs, b) + row < |AllRows(bs)|
    ensures var k := Offset(bs, b) + row;
            AllRows(bs[b := Replaced(bs[b], row, col, c)]) == AllRows(bs)[k := With(AllRows(bs)[k], col, c)]
  {
    ReplacedRows(bs[b], row, col, c);
    RowPosition(bs, b, row);
    AllRowsUpdate(bs, b, Replaced(bs[b], row, col, c), row, With(RowAt(bs[b], row), col, c));
  }

  /** A one-row batch appended is one row appended. */
  function Single(r: Row): Batch {
    Batch(1, seq(WIDTH, c requires 0 <= c < WIDTH => [r[c]]))
  }

  lemma AppendedRow(bs: seq<Batch>, r: Row)
    requires ValidBatches(bs)
    ensures ValidBatches(bs + [Single(r)]) && AllRows(bs + [Single(r)]) == AllRows(bs) + [r]
  {
    var b := Single(r);
    assert ValidBatch(b);
    assert (bs + [b])[..|bs|] == bs;
    assert RowAt(b, 0) == r;
  }
}

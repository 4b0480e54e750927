/**
 * The dynamic-column "Project Details" grid (`EditableProjectDetails`). Columns are labels;
 * a row is a map from cell key to text, and the cell key of a column is its label in lower
 * case, so two labels that differ only in case name the same cell.
 */
module DetailGrid {
  import opened Text

  type Row = map<string, string>

  datatype Column = Column(name: string)

  datatype Grid = Grid(columns: seq<Column>, rows: seq<Row>)

  const InitialColumns: seq<Column> := [Column("Description"), Column("Status")]

  /** `col.name.toLowerCase()`: where a column's cells are stored in every row. */
  function Key(c: Column): string {
    ToLower(c.name)
  }

  function ColumnKeys(cols: seq<Column>): set<string> {
    set j | 0 <= j < |cols| :: Key(cols[j])
  }

  /** Every row holds a key for every column. */
  ghost predicate Covers(cols: seq<Column>, rows: seq<Row>) {
    forall i, j | 0 <= i < |rows| && 0 <= j < |cols| :: Key(cols[j]) in rows[i]
  }

  /** `detail[key] || ''`: what an input shows; a missing key reads as the empty string. */
  function Cell(row: Row, key: string): string {
    if key in row then row[key] else ""
  }

  /** What the table shows: one line per row, one cell per column, in order. */
  function View(g: Grid): (v: seq<seq<string>>)
    ensures |v| == |g.rows|
    ensures forall i | 0 <= i < |v| :: |v[i]| == |g.columns|
  {
    seq(|g.rows|, i requires 0 <= i < |g.rows| =>
      seq(|g.columns|, j requires 0 <= j < |g.columns| => Cell(g.rows[i], Key(g.columns[j]))))
  }

  /** `rows.map(detail => ({ ...detail, [key]: '' }))` */
  function BackFill(rows: seq<Row>, key: string): (r: seq<Row>)
    ensures |r| == |rows|
    ensures forall i | 0 <= i < |rows| :: r[i].Keys == rows[i].Keys + {key} && r[i][key] == ""
    ensures forall i, k | 0 <= i < |rows| && k in rows[i] && k != key :: r[i][k] == rows[i][k]
  {
    if rows == [] then [] else [rows[0][key := ""]] + BackFill(rows[1..], key)
  }

  /**
   * `addColumn`: a blank label changes nothing; any other label (untrimmed) is appended
   * as a column and every row gets its lower-cased key set to "", overwriting the value
   * of an earlier column with the same key.
   */
  function WithColumn(g: Grid, name: string): (r: Grid)
    ensures IsBlank(name) ==> r == g
    ensures !IsBlank(name) ==> r.columns == g.columns + [Column(name)] && |r.rows| == |g.rows|
    ensures !IsBlank(name) ==> forall i | 0 <= i < |g.rows| ::
      && r.rows[i].Keys == g.rows[i].Keys + {ToLower(name)}
      && r.rows[i][ToLower(name)] == ""
      && forall k | k in g.rows[i] && k != ToLower(name) :: r.rows[i][k] == g.rows[i][k]
  {
    if IsBlank(name) then g else Grid(g.columns + [Column(name)], BackFill(g.rows, ToLower(name)))
  }

  /** Adding a column keeps every row covering every column. */
  lemma WithColumnCovers(g: Grid, name: string)
    requires Covers(g.columns, g.rows)
    ensures var r := WithColumn(g, name); Covers(r.columns, r.rows)
  {
  }

  /**
   * What the table shows after adding a column: the new column reads "" everywhere, so
   * does every earlier column whose label has the same lower-cased form, and every other
   * cell keeps what it showed.
   */
  lemma WithColumnView(g: Grid, name: string)
    requires !IsBlank(name)
    ensures var v, w := View(g), View(WithColumn(g, name));
      && |w| == |v|
      && (forall i | 0 <= i < |w| :: |w[i]| == |v[i]| + 1 && w[i][|v[i]|] == "")
      && forall i, j | 0 <= i < |w| && 0 <= j < |v[i]| ::
        w[i][j] == if Key(g.columns[j]) == ToLower(name) then "" else v[i][j]
  {
    var r := WithColumn(g, name);
    forall i, j | 0 <= i < |g.rows| && 0 <= j <= |g.columns|
      ensures View(r)[i][j] == if j == |g.columns| || Key(g.columns[j]) == ToLower(name) then "" else View(g)[i][j]
    {
      WithColumnCell(g, name, i, j);
    }
  }

  lemma WithColumnCell(g: Grid, name: string, i: nat, j: nat)
    requires !IsBlank(name) && i < |g.rows| && j <= |g.columns|
    ensures var r := WithColumn(g, name);
      Cell(r.rows[i], Key(r.columns[j])) ==
        if j == |g.columns| || Key(g.columns[j]) == ToLower(name) then "" else Cell(g.rows[i], Key(g.columns[j]))
  {
  }

  /** A blank row: "" under the key of every column. */
  function BlankRow(cols: seq<Column>): Row {
    map k | k in ColumnKeys(cols) :: ""
  }

  /** `addDetailRow`'s loop: `columns.forEach(col => newRow[col.name.toLowerCase()] = '')`. */
  method NewRow(columns: seq<Column>) returns (row: Row)
    ensures row == BlankRow(columns)
  {
    row := map[];
    for i := 0 to |columns|
      invariant row.Keys == ColumnKeys(columns[..i])
      invariant forall k | k in row :: row[k] == ""
    {
      assert ColumnKeys(columns[..i + 1]) == ColumnKeys(columns[..i]) + {Key(columns[i])} by {
        assert forall j | 0 <= j < i :: columns[..i + 1][j] == columns[..i][j];
      }
      row := row[Key(columns[i]) := ""];
    }
    assert columns[..|columns|] == columns;
  }

  /** A row appended by `addDetailRow` covers every column and shows "" in each. */
  lemma BlankRowView(g: Grid)
    ensures var r := Grid(g.columns, g.rows + [BlankRow(g.columns)]);
      && (Covers(g.columns, g.rows) ==> Covers(r.columns, r.rows))
      && View(r) == View(g) + [seq(|g.columns|, _ => "")]
  {
    var r := Grid(g.columns, g.rows + [BlankRow(g.columns)]);
    forall j | 0 <= j < |g.columns| ensures Key(g.columns[j]) in BlankRow(g.columns) {
      assert Key(g.columns[j]) in ColumnKeys(g.columns);
    }
    assert View(r)[|g.rows|] == seq(|g.columns|, _ => "");
    assert forall i | 0 <= i < |g.rows| :: View(r)[i] == View(g)[i];
  }

  /**
   * `handleCellEdit(index, columnIndex, value)`: only row `index` changes, and in it only
   * the key of column `columnIndex`. The column is looked up only when the row exists.
   */
  function WithCell(g: Grid, index: nat, columnIndex: nat, value: string): (r: Grid)
    requires index < |g.rows| ==> columnIndex < |g.columns|
    ensures r.columns == g.columns && |r.rows| == |g.rows|
    ensures forall i | 0 <= i < |g.rows| && i != index :: r.rows[i] == g.rows[i]
    ensures index < |g.rows| ==>
      var key := Key(g.columns[columnIndex]);
      && r.rows[index].Keys == g.rows[index].Keys + {key}
      && r.rows[index][key] == value
      && forall k | k in g.rows[index] && k != key :: r.rows[index][k] == g.rows[index][k]
  {
    if index < |g.rows| then
      Grid(g.columns, g.rows[index := g.rows[index][Key(g.columns[columnIndex]) := value]])
    else g
  }

  /** Editing a cell keeps every row covering every column. */
  lemma WithCellCovers(g: Grid, index: nat, columnIndex: nat, value: string)
    requires index < |g.rows| ==> columnIndex < |g.columns|
    requires Covers(g.columns, g.rows)
    ensures var r := WithCell(g, index, columnIndex, value); Covers(r.columns, r.rows)
  {
  }

  /**
   * What the table shows after an edit: in row `index`, the edited column and every column
   * sharing its key show the value; every other cell keeps what it showed.
   */
  lemma WithCellView(g: Grid, index: nat, columnIndex: nat, value: string)
    requires index < |g.rows| ==> columnIndex < |g.columns|
    ensures var v, w := View(g), View(WithCell(g, index, columnIndex, value));
      forall i, j | 0 <= i < |g.rows| && 0 <= j < |g.columns| ::
        w[i][j] == if i == index && Key(g.columns[j]) == Key(g.columns[columnIndex]) then value else v[i][j]
  {
  }

  /** `rows.filter((_, i) => i !== k)`: the element at `k` goes, later ones move down by one. */
  function WithoutRow<T>(s: seq<T>, k: nat): (r: seq<T>)
    ensures k < |s| ==> r == s[..k] + s[k + 1..]
    ensures k >= |s| ==> r == s
  {
    seq(if k < |s| then |s| - 1 else |s|, i requires 0 <= i < (if k < |s| then |s| - 1 else |s|) =>
      if i < k then s[i] else s[i + 1])
  }

  /** Deleting a row deletes exactly that line of the table and keeps the shape. */
  lemma WithoutRowView(g: Grid, k: nat)
    ensures var r := Grid(g.columns, WithoutRow(g.rows, k));
      && View(r) == WithoutRow(View(g), k)
      && (Covers(g.columns, g.rows) ==> Covers(r.columns, r.rows))
  {
  }

  /** The row `ClientDetail` appends for an accepted detail, whatever the current columns. */
  function DetailRow(description: string): Row {
    map["description" := description, "status" := ""]
  }

  lemma InitialKeys()
    ensures Key(InitialColumns[0]) == "description" && Key(InitialColumns[1]) == "status"
  {
  }

  /**
   * A detail row shows its text under every column keyed "description" and "" elsewhere;
   * appending it keeps the rows covering the columns exactly when no column has a key
   * other than "description" and "status".
   */
  lemma DetailRowShape(cols: seq<Column>, rows: seq<Row>, description: string)
    ensures forall j | 0 <= j < |cols| ::
      Cell(DetailRow(description), Key(cols[j])) == if Key(cols[j]) == "description" then description else ""
    ensures Covers(cols, rows + [DetailRow(description)]) <==>
      Covers(cols, rows) && ColumnKeys(cols) <= {"description", "status"}
  {
    var all := rows + [DetailRow(description)];
    if Covers(cols, all) {
      forall j | 0 <= j < |cols| ensures Key(cols[j]) in {"description", "status"} {
        assert Key(cols[j]) in all[|rows|];
      }
      forall i, j | 0 <= i < |rows| && 0 <= j < |cols| ensures Key(cols[j]) in rows[i] {
        assert all[i] == rows[i];
      }
    }
    if Covers(cols, rows) && ColumnKeys(cols) <= {"description", "status"} {
      forall i, j | 0 <= i < |all| && 0 <= j < |cols| ensures Key(cols[j]) in all[i] {
        if i < |rows| {
          assert all[i] == rows[i];
        } else {
          assert Key(cols[j]) in ColumnKeys(cols);
        }
      }
    }
  }

  class ProjectDetails {
    var columns: seq<Column>
    var rows: seq<Row>

    /** Columns "Description" and "Status", and no rows (clients carry no details). */
    constructor ()
      ensures columns == InitialColumns && rows == []
    {
      columns := InitialColumns;
      rows := [];
    }

    method AddColumn(name: string)
      modifies this
      ensures Grid(columns, rows) == WithColumn(old(Grid(columns, rows)), name)
    {
      var g := WithColumn(Grid(columns, rows), name);
      columns, rows := g.columns, g.rows;
    }

    /** `addDetailRow`: a row with "" under every current column key goes to the end. */
    method AddDetailRow()
      modifies this
      ensures columns == old(columns) && rows == old(rows) + [BlankRow(columns)]
    {
      var row := NewRow(columns);
      rows := rows + [row];
    }

    method HandleCellEdit(index: nat, columnIndex: nat, value: string)
      requires index < |rows| ==> columnIndex < |columns|
      modifies this
      ensures Grid(columns, rows) == WithCell(old(Grid(columns, rows)), index, columnIndex, value)
    {
      var g := WithCell(Grid(columns, rows), index, columnIndex, value);
      rows := g.rows;
    }

    /** The Delete button of row `rowIndex`. */
    method DeleteRow(rowIndex: nat)
      modifies this
      ensures columns == old(columns) && rows == WithoutRow(old(rows), rowIndex)
    {
      rows := WithoutRow(rows, rowIndex);
    }
  }

  /**
   * A status typed into the "Status" column is wiped when a column labelled "status" is
   * added, because both columns store their cells under the key "status".
   */
  method CollisionScenario()
  {
    var grid := new ProjectDetails();
    grid.AddDetailRow();
    InitialKeys();
    grid.HandleCellEdit(0, 1, "done");
    assert Cell(grid.rows[0], Key(grid.columns[1])) == "done";
    assert !IsBlank("status") by { assert !IsSpace("status"[0]); }
    assert ToLower("status") == "status";
    grid.AddColumn("status");
    assert |grid.columns| == 3;
    assert Cell(grid.rows[0], Key(grid.columns[1])) == "";
  }
}

/**
 * The fixed-schema "Data Table" widget (`EditableTable`): rows `{id, name, email, role}`
 * with numeric ids, edited one field at a time, appended blank and deleted by id.
 */
module FixedTable {
  import opened Records

  /** The three editable columns; the UI edits no other field. */
  datatype Field = Name | Email | Role

  datatype Person = Person(name: string, email: string, role: string)

  type TableRow = Entry<int, Person>

  const BlankPerson: Person := Person("", "", "")

  function FieldOf(p: Person, f: Field): string {
    match f
    case Name => p.name
    case Email => p.email
    case Role => p.role
  }

  /** `{ ...row, [field]: value }` on the non-id part of a row. */
  function WithField(p: Person, f: Field, v: string): (q: Person)
    ensures forall g :: FieldOf(q, g) == if g == f then v else FieldOf(p, g)
  {
    match f
    case Name => p.(name := v)
    case Email => p.(email := v)
    case Role => p.(role := v)
  }

  /** Two people agreeing on every field are the same. */
  lemma PersonByFields(p: Person, q: Person)
    requires forall g :: FieldOf(p, g) == FieldOf(q, g)
    ensures p == q
  {
    assert FieldOf(p, Name) == FieldOf(q, Name);
    assert FieldOf(p, Email) == FieldOf(q, Email);
    assert FieldOf(p, Role) == FieldOf(q, Role);
  }

  /**
   * `handleCellEdit(id, field, value)`: the rows keep their number, order and ids; a row
   * whose id matches gets `value` in `field`; every other field of every row is unchanged.
   */
  function EditField(rows: seq<TableRow>, id: int, f: Field, v: string): (r: seq<TableRow>)
    ensures |r| == |rows|
    ensures forall i | 0 <= i < |rows| :: r[i].id == rows[i].id
    ensures forall i, g | 0 <= i < |rows| ::
      FieldOf(r[i].fields, g) == if rows[i].id == id && g == f then v else FieldOf(rows[i].fields, g)
  {
    if rows == [] then []
    else
      var row := rows[0];
      var edited := if row.id == id then Entry(row.id, WithField(row.fields, f, v)) else row;
      [edited] + EditField(rows[1..], id, f, v)
  }

  /** An edit touches only rows with that id: any other row is the very same value. */
  lemma EditFieldOtherRows(rows: seq<TableRow>, id: int, f: Field, v: string, i: int)
    requires 0 <= i < |rows| && rows[i].id != id
    ensures EditField(rows, id, f, v)[i] == rows[i]
  {
    var r := EditField(rows, id, f, v);
    PersonByFields(r[i].fields, rows[i].fields);
  }

  /** Editing the same cell twice keeps only the second value. */
  lemma EditFieldLastWins(rows: seq<TableRow>, id: int, f: Field, v1: string, v2: string)
    ensures EditField(EditField(rows, id, f, v1), id, f, v2) == EditField(rows, id, f, v2)
  {
  }

  /** Deleting a row after editing it is the same as deleting it straight away. */
  lemma {:induction false} EditThenDelete(rows: seq<TableRow>, id: int, f: Field, v: string)
    ensures RemoveId(EditField(rows, id, f, v), id) == RemoveId(rows, id)
  {
    if rows != [] {
      var r := EditField(rows, id, f, v);
      assert r[1..] == EditField(rows[1..], id, f, v);
      EditThenDelete(rows[1..], id, f, v);
      if rows[0].id != id {
        EditFieldOtherRows(rows, id, f, v, 0);
      }
    }
  }

  class EditableTable {
    var rows: seq<TableRow>

    /** The widget starts with two blank rows, ids 1 and 2. */
    constructor ()
      ensures rows == [Entry(1, BlankPerson), Entry(2, BlankPerson)]
    {
      rows := [Entry(1, BlankPerson), Entry(2, BlankPerson)];
    }

    method HandleCellEdit(id: int, f: Field, v: string)
      modifies this
      ensures rows == EditField(old(rows), id, f, v)
    {
      rows := EditField(rows, id, f, v);
    }

    /** `addRow`: one blank row with the given id goes to the end. */
    method AddRow(id: int)
      modifies this
      ensures rows == old(rows) + [Entry(id, BlankPerson)]
    {
      rows := rows + [Entry(id, BlankPerson)];
    }

    /** `deleteRow(id)`: every row with the id goes, the others stay in order. */
    method DeleteRow(id: int)
      modifies this
      ensures rows == RemoveId(old(rows), id)
    {
      rows := RemoveId(rows, id);
    }
  }
}

/** The in-memory loan table: a set of column names and a sequence of rows.

    A row maps column names to cell values. A cell that is missing from a
    row's map is an empty (NaN) cell of the table: it equals nothing and
    fails every comparison. */
module Frames {

  /** A table cell: a number (one-hot flags, amounts, rates) or a text label. */
  datatype Value = Num(x: real) | Text(s: string)

  type Row = map<string, Value>

  /** The value of a whole table. */
  datatype Table = Table(columns: set<string>, rows: seq<Row>)

  /** A row whose every cell belongs to a column of the table. */
  ghost predicate RowsWithin(columns: set<string>, rows: seq<Row>) {
    forall i :: 0 <= i < |rows| ==> rows[i].Keys <= columns
  }

  /** A data frame whose columns can be assigned in place. */
  class Frame {
    var columns: set<string>
    var rows: seq<Row>

    function Model(): Table
      reads this
    {
      Table(columns, rows)
    }

    constructor (t: Table)
      ensures Model() == t
    {
      columns := t.columns;
      rows := t.rows;
    }

    /** `df.copy()`: a fresh frame holding the same table. */
    method Copy() returns (c: Frame)
      ensures fresh(c)
      ensures c.Model() == Model()
    {
      c := new Frame(Model());
    }

    /** `df[name] = values`: adds or overwrites column `name`, one value per row;
        every other cell is kept. */
    method AssignColumn(name: string, values: seq<Value>)
      requires |values| == |rows|
      modifies this
      ensures columns == old(columns) + {name}
      ensures |rows| == |old(rows)|
      ensures forall i :: 0 <= i < |rows| ==> rows[i] == old(rows[i])[name := values[i]]
      ensures RowsWithin(old(columns), old(rows)) ==> RowsWithin(columns, rows)
    {
      columns := columns + {name};
      var before := rows;
      rows := seq(|before|, i requires 0 <= i < |before| => before[i][name := values[i]]);
    }
  }
}

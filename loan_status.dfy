/** Rebuilds the categorical `loan_status` column from the three one-hot
    status columns (utils/helpers.py, get_loan_status_from_columns and
    create_loan_status_column). */
module LoanStatus {
  import opened Frames
  import Settings

  const ChargedOffColumn: string := "loan_status_Charged Off"
  const CurrentColumn: string := "loan_status_Current"
  const FullyPaidColumn: string := "loan_status_Fully Paid"
  const LoanStatusColumn: string := "loan_status"

  /** The one-hot columns, in precedence order. */
  const StatusColumns: seq<string> := [ChargedOffColumn, CurrentColumn, FullyPaidColumn]

  /** The four labels the deriver can produce. */
  const StatusLabels: set<string> := {"Charged Off", "Current", "Fully Paid", "Unknown"}

  /** `col in row.index and row.get(col, 0) == 1`: the column is part of the
      table and the row's cell in it equals one. An empty cell is not set. */
  predicate FlagSet(columns: set<string>, row: Row, col: string) {
    col in columns && col in row && row[col] == Num(1.0)
  }

  /** get_loan_status_from_columns: the label of the first set flag in the
      order Charged Off, Current, Fully Paid; 'Unknown' when none is set. */
  function StatusFromColumns(columns: set<string>, row: Row): string {
    if FlagSet(columns, row, ChargedOffColumn) then "Charged Off"
    else if FlagSet(columns, row, CurrentColumn) then "Current"
    else if FlagSet(columns, row, FullyPaidColumn) then "Fully Paid"
    else "Unknown"
  }

  /** The deriver's precedence table, both ways: each label is produced
      exactly when its flag is set and no flag before it is. */
  lemma StatusPrecedence(columns: set<string>, row: Row)
    ensures StatusFromColumns(columns, row) in StatusLabels
    ensures StatusFromColumns(columns, row) == "Charged Off"
      <==> FlagSet(columns, row, ChargedOffColumn)
    ensures StatusFromColumns(columns, row) == "Current"
      <==> !FlagSet(columns, row, ChargedOffColumn) && FlagSet(columns, row, CurrentColumn)
    ensures StatusFromColumns(columns, row) == "Fully Paid"
      <==> !FlagSet(columns, row, ChargedOffColumn) && !FlagSet(columns, row, CurrentColumn)
           && FlagSet(columns, row, FullyPaidColumn)
    ensures StatusFromColumns(columns, row) == "Unknown"
      <==> forall col :: col in StatusColumns ==> !FlagSet(columns, row, col)
  {
  }

  /** A status column missing from the table behaves exactly like a column
      that is present and holds 0 in this row. */
  lemma AbsentColumnIsUnset(columns: set<string>, row: Row, col: string)
    requires col in StatusColumns
    ensures StatusFromColumns(columns - {col}, row)
         == StatusFromColumns(columns + {col}, row[col := Num(0.0)])
  {
  }

  /** The label depends on the three status cells only: rows that agree on
      them get the same label, whatever else they hold. */
  lemma StatusDependsOnFlagsOnly(columns: set<string>, row1: Row, row2: Row)
    requires forall col :: col in StatusColumns ==>
      (col in row1 <==> col in row2) && (col in row1 ==> row1[col] == row2[col])
    ensures StatusFromColumns(columns, row1) == StatusFromColumns(columns, row2)
  {
    assert StatusColumns[0] == ChargedOffColumn && StatusColumns[1] == CurrentColumn;
    assert StatusColumns[2] == FullyPaidColumn;
  }

  /** Every derived label has a colour of its own in STATUS_COLORS, so the
      status chart never needs its fallback colour for derived labels. */
  lemma StatusHasColor(columns: set<string>, row: Row)
    ensures StatusFromColumns(columns, row) in Settings.StatusColors
  {
  }

  /** `[col for col in names if col in columns]`: the names present among
      the columns, in their original order. */
  function PresentColumns(names: seq<string>, columns: set<string>): (r: seq<string>)
    ensures |r| <= |names|
    ensures forall c :: c in r <==> c in names && c in columns
  {
    if names == [] then []
    else if names[0] in columns then [names[0]] + PresentColumns(names[1..], columns)
    else PresentColumns(names[1..], columns)
  }

  /** What create_loan_status_column does to a table with these columns. */
  datatype Plan = Recompute | FillUnknown | Leave

  function PlanFor(columns: set<string>): (p: Plan)
    ensures p == Recompute <==> exists col :: col in StatusColumns && col in columns
    ensures p == FillUnknown
      <==> (forall col :: col in StatusColumns ==> col !in columns) && LoanStatusColumn !in columns
    ensures p == Leave
      <==> (forall col :: col in StatusColumns ==> col !in columns) && LoanStatusColumn in columns
  {
    var existing := PresentColumns(StatusColumns, columns);
    if existing != [] then
      assert existing[0] in StatusColumns && existing[0] in columns;
      Recompute
    else if LoanStatusColumn !in columns then FillUnknown
    else Leave
  }

  /** The table create_loan_status_column returns for `t`. */
  function WithLoanStatus(t: Table): Table {
    match PlanFor(t.columns)
    case Recompute =>
      Table(t.columns + {LoanStatusColumn},
            seq(|t.rows|, i requires 0 <= i < |t.rows| =>
              t.rows[i][LoanStatusColumn := Text(StatusFromColumns(t.columns, t.rows[i]))]))
    case FillUnknown =>
      Table(t.columns + {LoanStatusColumn},
            seq(|t.rows|, i requires 0 <= i < |t.rows| =>
              t.rows[i][LoanStatusColumn := Text("Unknown")]))
    case Leave => t
  }

  /** The three cases of create_loan_status_column. In all of them the row
      count is kept and every cell outside `loan_status` is unchanged. */
  lemma WithLoanStatusCases(t: Table)
    ensures |WithLoanStatus(t).rows| == |t.rows|
    ensures forall i, c :: 0 <= i < |t.rows| && c != LoanStatusColumn ==>
      (c in WithLoanStatus(t).rows[i] <==> c in t.rows[i]) &&
      (c in t.rows[i] ==> WithLoanStatus(t).rows[i][c] == t.rows[i][c])
    ensures (exists col :: col in StatusColumns && col in t.columns) ==>
      WithLoanStatus(t).columns == t.columns + {LoanStatusColumn} &&
      forall i :: 0 <= i < |t.rows| ==>
        WithLoanStatus(t).rows[i][LoanStatusColumn] == Text(StatusFromColumns(t.columns, t.rows[i]))
    ensures (forall col :: col in StatusColumns ==> col !in t.columns) && LoanStatusColumn !in t.columns ==>
      WithLoanStatus(t).columns == t.columns + {LoanStatusColumn} &&
      forall i :: 0 <= i < |t.rows| ==> WithLoanStatus(t).rows[i][LoanStatusColumn] == Text("Unknown")
    ensures (forall col :: col in StatusColumns ==> col !in t.columns) && LoanStatusColumn in t.columns ==>
      WithLoanStatus(t) == t
    ensures RowsWithin(t.columns, t.rows) ==> RowsWithin(WithLoanStatus(t).columns, WithLoanStatus(t).rows)
  {
  }

  /** Deriving the column a second time changes nothing: the recomputed
      labels read only the one-hot columns, which the first pass left alone. */
  lemma {:induction false} WithLoanStatusIdempotent(t: Table)
    ensures WithLoanStatus(WithLoanStatus(t)) == WithLoanStatus(t)
  {
    var once := WithLoanStatus(t);
    match PlanFor(t.columns)
    case Recompute =>
      assert PlanFor(once.columns) == Recompute by {
        var col :| col in StatusColumns && col in t.columns;
        assert col in once.columns;
      }
      var twice := WithLoanStatus(once);
      assert |twice.rows| == |once.rows|;
      forall i | 0 <= i < |once.rows| ensures twice.rows[i] == once.rows[i] {
        StatusDependsOnFlagsOnly(t.columns, t.rows[i], once.rows[i]);
        assert StatusFromColumns(once.columns, once.rows[i]) == StatusFromColumns(t.columns, once.rows[i]);
        assert once.rows[i][LoanStatusColumn] == Text(StatusFromColumns(t.columns, t.rows[i]));
      }
    case FillUnknown =>
      assert PlanFor(once.columns) == Leave;
    case Leave =>
  }

  /** `df.apply(get_loan_status_from_columns, axis=1)`: the label of every row. */
  method DeriveStatuses(columns: set<string>, rows: seq<Row>) returns (labels: seq<Value>)
    ensures |labels| == |rows|
    ensures forall i :: 0 <= i < |rows| ==> labels[i] == Text(StatusFromColumns(columns, rows[i]))
  {
    labels := [];
    var i := 0;
    while i < |rows|
      invariant 0 <= i <= |rows|
      invariant |labels| == i
      invariant forall k :: 0 <= k < i ==> labels[k] == Text(StatusFromColumns(columns, rows[k]))
    {
      labels := labels + [Text(StatusFromColumns(columns, rows[i]))];
      i := i + 1;
    }
  }

  /** create_loan_status_column: copies the frame, then assigns `loan_status`
      on the copy as WithLoanStatus says. The argument is not modified. */
  method CreateLoanStatusColumn(df: Frame) returns (out: Frame)
    ensures fresh(out)
    ensures out.Model() == WithLoanStatus(df.Model())
  {
    out := df.Copy();
    var existing := PresentColumns(StatusColumns, out.columns);
    if existing != [] {
      var labels := DeriveStatuses(out.columns, out.rows);
      out.AssignColumn(LoanStatusColumn, labels);
    } else if LoanStatusColumn !in out.columns {
      out.AssignColumn(LoanStatusColumn, seq(|out.rows|, _ => Text("Unknown")));
    }
  }
}

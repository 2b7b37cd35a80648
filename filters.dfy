/** The sidebar's filter engine (components/sidebar.py, apply_filters):
    optional set-membership filters on grade, state and region, and
    inclusive range filters on loan amount and interest rate, applied one
    after the other to a copy of the table. */
module Filters {
  import opened Optional
  import opened Frames

  const GradeColumn: string := "grade"
  const StateColumn: string := "address_state"
  const RegionColumn: string := "region"
  const AmountColumn: string := "loan_amount"
  const RateColumn: string := "int_rate"

  /** An upper bound that may be infinite (`float('inf')`). */
  datatype Limit = At(v: real) | Infinity

  /** A closed interval `(low, high)`. */
  datatype Range = Range(lo: real, hi: Limit)

  /** The filters dictionary; None is a key that is missing. */
  datatype FilterSettings = FilterSettings(
    grades: Option<seq<Value>>,
    states: Option<seq<Value>>,
    regions: Option<seq<Value>>,
    amountRange: Option<Range>,
    rateRange: Option<Range>)

  /** `filters.get('amount_range', (0, float('inf')))` when the key is missing. */
  const DefaultAmountRange: Range := Range(0.0, Infinity)
  /** `filters.get('rate_range', (0, 1))` when the key is missing. */
  const DefaultRateRange: Range := Range(0.0, At(1.0))

  /** The five filtering stages. */
  datatype Stage = GradeStage | StateStage | RegionStage | AmountStage | RateStage {
    predicate IsSetStage() {
      GradeStage? || StateStage? || RegionStage?
    }
  }

  const AllStages: set<Stage> := {GradeStage, StateStage, RegionStage, AmountStage, RateStage}

  /** The order apply_filters runs the stages in. */
  const SourceOrder: seq<Stage> := [GradeStage, StateStage, RegionStage, AmountStage, RateStage]

  function StageColumn(s: Stage): string {
    match s
    case GradeStage => GradeColumn
    case StateStage => StateColumn
    case RegionStage => RegionColumn
    case AmountStage => AmountColumn
    case RateStage => RateColumn
  }

  /** The allowed values of a set stage. */
  function AllowedValues(s: Stage, f: FilterSettings): Option<seq<Value>>
    requires s.IsSetStage()
  {
    match s
    case GradeStage => f.grades
    case StateStage => f.states
    case RegionStage => f.regions
  }

  /** The interval of a range stage, with the default for a missing key. */
  function StageRange(s: Stage, f: FilterSettings): Range
    requires !s.IsSetStage()
  {
    if s == AmountStage then f.amountRange.GetOr(DefaultAmountRange)
    else f.rateRange.GetOr(DefaultRateRange)
  }

  /** Python truthiness of `filters.get(key)`: present and non-empty. */
  predicate Truthy(l: Option<seq<Value>>) {
    l.Some? && l.value != []
  }

  /** Whether apply_filters runs the stage at all: its column exists and, for
      a set stage, its list is non-empty. */
  predicate Active(s: Stage, columns: set<string>, f: FilterSettings) {
    StageColumn(s) in columns && (s.IsSetStage() ==> Truthy(AllowedValues(s, f)))
  }

  /** `lo <= v <= hi`, which an empty or text cell never satisfies. */
  predicate InRange(v: Value, r: Range) {
    v.Num? && r.lo <= v.x && (r.hi.At? ==> v.x <= r.hi.v)
  }

  /** The stage's boolean mask on one row: `isin` for a set stage, the two
      inclusive comparisons for a range stage. */
  predicate MaskHolds(s: Stage, f: FilterSettings, row: Row) {
    var col := StageColumn(s);
    col in row &&
    if s.IsSetStage() then row[col] in AllowedValues(s, f).GetOr([])
    else InRange(row[col], StageRange(s, f))
  }

  /** A row survives a stage when the stage is skipped or its mask holds. */
  predicate Passes(s: Stage, columns: set<string>, f: FilterSettings, row: Row) {
    Active(s, columns, f) ==> MaskHolds(s, f, row)
  }

  predicate PassesAll(stages: set<Stage>, columns: set<string>, f: FilterSettings, row: Row) {
    forall s :: s in stages ==> Passes(s, columns, f, row)
  }

  /** The rows that survive every stage in `stages`, in their original order. */
  function KeepPassing(rows: seq<Row>, columns: set<string>, f: FilterSettings, stages: set<Stage>): seq<Row>
    decreases |rows|
  {
    if rows == [] then []
    else (if PassesAll(stages, columns, f, rows[0]) then [rows[0]] else [])
         + KeepPassing(rows[1..], columns, f, stages)
  }

  /** The table apply_filters returns: same columns, the rows that satisfy
      every active filter. */
  function Filtered(t: Table, f: FilterSettings): Table {
    Table(t.columns, KeepPassing(t.rows, t.columns, f, AllStages))
  }

  /** Applies the stages one after the other in the given order. */
  function ApplyStages(rows: seq<Row>, columns: set<string>, f: FilterSettings, order: seq<Stage>): seq<Row>
    decreases |order|
  {
    if order == [] then rows
    else ApplyStages(KeepPassing(rows, columns, f, {order[0]}), columns, f, order[1..])
  }

  /** `xs` is `ys` with some elements dropped, the rest in their order. */
  predicate IsSubsequence<T(==)>(xs: seq<T>, ys: seq<T>)
    decreases |ys|
  {
    if xs == [] then true
    else if ys == [] then false
    else if xs[0] == ys[0] then IsSubsequence(xs[1..], ys[1..])
    else IsSubsequence(xs, ys[1..])
  }

  // ---- Lemmas about the specification ----

  /** Filtering splits over concatenation. */
  lemma {:induction false} KeepPassingAppend(a: seq<Row>, b: seq<Row>, columns: set<string>,
                                             f: FilterSettings, stages: set<Stage>)
    ensures KeepPassing(a + b, columns, f, stages)
         == KeepPassing(a, columns, f, stages) + KeepPassing(b, columns, f, stages)
    decreases |a|
  {
    if a == [] {
      assert a + b == b;
    } else {
      assert (a + b)[0] == a[0];
      assert (a + b)[1..] == a[1..] + b;
      KeepPassingAppend(a[1..], b, columns, f, stages);
    }
  }

  /** A row is kept iff it is one of the input rows and passes every stage. */
  lemma {:induction false} KeepPassingMembers(rows: seq<Row>, columns: set<string>,
                                              f: FilterSettings, stages: set<Stage>)
    ensures forall r :: (r in KeepPassing(rows, columns, f, stages)
      <==> r in rows && PassesAll(stages, columns, f, r))
    decreases |rows|
  {
    if rows != [] {
      KeepPassingMembers(rows[1..], columns, f, stages);
      assert rows == [rows[0]] + rows[1..];
    }
  }

  /** Each passing row is kept as many times as it occurs in the input; a
      failing row not at all. */
  lemma {:induction false} KeepPassingMultiset(rows: seq<Row>, columns: set<string>,
                                               f: FilterSettings, stages: set<Stage>)
    ensures forall r :: (multiset(KeepPassing(rows, columns, f, stages))[r]
      == if PassesAll(stages, columns, f, r) then multiset(rows)[r] else 0)
    decreases |rows|
  {
    if rows != [] {
      KeepPassingMultiset(rows[1..], columns, f, stages);
      assert rows == [rows[0]] + rows[1..];
    }
  }

  /** Every kept row passes every stage. */
  lemma {:induction false} KeepPassingAllPass(rows: seq<Row>, columns: set<string>,
                                              f: FilterSettings, stages: set<Stage>)
    ensures forall i :: 0 <= i < |KeepPassing(rows, columns, f, stages)| ==>
      PassesAll(stages, columns, f, KeepPassing(rows, columns, f, stages)[i])
  {
    KeepPassingMembers(rows, columns, f, stages);
    var kept := KeepPassing(rows, columns, f, stages);
    forall i | 0 <= i < |kept| ensures PassesAll(stages, columns, f, kept[i]) {
      assert kept[i] in kept;
    }
  }

  /** The result is a subsequence of the input: rows are dropped, never
      changed or reordered. */
  lemma {:induction false} KeepPassingIsSubsequence(rows: seq<Row>, columns: set<string>,
                                                    f: FilterSettings, stages: set<Stage>)
    ensures IsSubsequence(KeepPassing(rows, columns, f, stages), rows)
    decreases |rows|
  {
    if rows != [] {
      var rest := KeepPassing(rows[1..], columns, f, stages);
      KeepPassingIsSubsequence(rows[1..], columns, f, stages);
      if PassesAll(stages, columns, f, rows[0]) {
        var kept := KeepPassing(rows, columns, f, stages);
        assert kept == [rows[0]] + rest;
        assert kept[0] == rows[0] && kept[1..] == rest;
      } else if rest != [] {
        KeepPassingAllPass(rows[1..], columns, f, stages);
        assert PassesAll(stages, columns, f, rest[0]);
        assert rest[0] != rows[0];
        assert KeepPassing(rows, columns, f, stages) == rest;
        assert IsSubsequence(rest, rows) == IsSubsequence(rest, rows[1..]);
      }
    }
  }

  /** Rows that pass two stage sets equally are filtered equally. */
  lemma {:induction false} KeepPassingSameVerdict(rows: seq<Row>, columns: set<string>, f: FilterSettings,
                                                  s1: set<Stage>, s2: set<Stage>)
    requires forall i :: 0 <= i < |rows| ==>
      (PassesAll(s1, columns, f, rows[i]) <==> PassesAll(s2, columns, f, rows[i]))
    ensures KeepPassing(rows, columns, f, s1) == KeepPassing(rows, columns, f, s2)
    decreases |rows|
  {
    if rows != [] {
      KeepPassingSameVerdict(rows[1..], columns, f, s1, s2);
    }
  }

  /** Filtering by one stage set and then another is filtering by both. */
  lemma {:induction false} KeepPassingCompose(rows: seq<Row>, columns: set<string>, f: FilterSettings,
                                              s1: set<Stage>, s2: set<Stage>)
    ensures KeepPassing(KeepPassing(rows, columns, f, s1), columns, f, s2)
         == KeepPassing(rows, columns, f, s1 + s2)
    decreases |rows|
  {
    if rows != [] {
      KeepPassingCompose(rows[1..], columns, f, s1, s2);
      var head := if PassesAll(s1, columns, f, rows[0]) then [rows[0]] else [];
      KeepPassingAppend(head, KeepPassing(rows[1..], columns, f, s1), columns, f, s2);
      if PassesAll(s1, columns, f, rows[0]) {
        assert KeepPassing(head, columns, f, s2)
            == if PassesAll(s2, columns, f, rows[0]) then [rows[0]] else [];
      }
    }
  }

  /** A stage that is not active keeps every row. */
  lemma {:induction false} InactiveStageKeepsAll(rows: seq<Row>, columns: set<string>,
                                                 f: FilterSettings, s: Stage, stages: set<Stage>)
    requires !Active(s, columns, f)
    ensures KeepPassing(rows, columns, f, stages + {s}) == KeepPassing(rows, columns, f, stages)
    ensures KeepPassing(rows, columns, f, {s}) == rows
    decreases |rows|
  {
    KeepPassingSameVerdict(rows, columns, f, stages + {s}, stages);
    if rows != [] {
      InactiveStageKeepsAll(rows[1..], columns, f, s, stages);
      assert PassesAll({s}, columns, f, rows[0]);
    }
  }

  /** A grade, state or region filter is a no-op when its list is missing or
      empty, or when its column is not in the table. */
  lemma SetFilterNoOp(rows: seq<Row>, columns: set<string>, f: FilterSettings, s: Stage)
    requires s.IsSetStage()
    requires AllowedValues(s, f) == None || AllowedValues(s, f) == Some([]) || StageColumn(s) !in columns
    ensures KeepPassing(rows, columns, f, {s}) == rows
  {
    InactiveStageKeepsAll(rows, columns, f, s, {});
  }

  /** An active set filter keeps exactly the rows whose value is in its list. */
  lemma SetFilterMembership(s: Stage, columns: set<string>, f: FilterSettings, row: Row)
    requires s.IsSetStage() && Active(s, columns, f)
    ensures Passes(s, columns, f, row)
      <==> StageColumn(s) in row && row[StageColumn(s)] in AllowedValues(s, f).value
  {
  }

  /** The range filters are inclusive at both ends, apply only when their
      column exists, and default to [0, infinity) for the amount and [0, 1]
      for the rate. */
  lemma RangeFilterBounds(columns: set<string>, f: FilterSettings, row: Row)
    ensures AmountColumn !in columns ==> Passes(AmountStage, columns, f, row)
    ensures RateColumn !in columns ==> Passes(RateStage, columns, f, row)
    ensures AmountColumn in columns && f.amountRange.Some? ==>
      (Passes(AmountStage, columns, f, row) <==>
        AmountColumn in row && row[AmountColumn].Num? &&
        f.amountRange.value.lo <= row[AmountColumn].x &&
        (f.amountRange.value.hi.At? ==> row[AmountColumn].x <= f.amountRange.value.hi.v))
    ensures AmountColumn in columns && f.amountRange.None? ==>
      (Passes(AmountStage, columns, f, row) <==>
        AmountColumn in row && row[AmountColumn].Num? && 0.0 <= row[AmountColumn].x)
    ensures RateColumn in columns && f.rateRange.Some? && f.rateRange.value.hi.At? ==>
      (Passes(RateStage, columns, f, row) <==>
        RateColumn in row && row[RateColumn].Num? &&
        f.rateRange.value.lo <= row[RateColumn].x <= f.rateRange.value.hi.v)
    ensures RateColumn in columns && f.rateRange.None? ==>
      (Passes(RateStage, columns, f, row) <==>
        RateColumn in row && row[RateColumn].Num? && 0.0 <= row[RateColumn].x <= 1.0)
  {
  }

  /** A row is in the result iff it is an input row satisfying every active filter. */
  lemma FilteredMembers(t: Table, f: FilterSettings)
    ensures Filtered(t, f).columns == t.columns
    ensures IsSubsequence(Filtered(t, f).rows, t.rows)
    ensures forall r :: r in Filtered(t, f).rows <==>
      r in t.rows && forall s :: s in AllStages && Active(s, t.columns, f) ==> MaskHolds(s, f, r)
    ensures forall r :: (multiset(Filtered(t, f).rows)[r]
      == if PassesAll(AllStages, t.columns, f, r) then multiset(t.rows)[r] else 0)
    ensures RowsWithin(t.columns, t.rows) ==> RowsWithin(Filtered(t, f).columns, Filtered(t, f).rows)
  {
    KeepPassingMembers(t.rows, t.columns, f, AllStages);
    KeepPassingMultiset(t.rows, t.columns, f, AllStages);
    KeepPassingIsSubsequence(t.rows, t.columns, f, AllStages);
    var kept := Filtered(t, f).rows;
    if RowsWithin(t.columns, t.rows) {
      forall i | 0 <= i < |kept| ensures kept[i].Keys <= t.columns {
        assert kept[i] in t.rows;
        var j :| 0 <= j < |t.rows| && t.rows[j] == kept[i];
      }
    }
  }

  /** Applying the stages in any order gives the rows that pass them all. */
  lemma {:induction false} ApplyStagesAnyOrder(rows: seq<Row>, columns: set<string>,
                                               f: FilterSettings, order: seq<Stage>)
    ensures ApplyStages(rows, columns, f, order) == KeepPassing(rows, columns, f, set s | s in order)
    decreases |order|
  {
    if order == [] {
      assert (set s | s in order) == {};
      KeepEmptyStages(rows, columns, f);
    } else {
      var first := KeepPassing(rows, columns, f, {order[0]});
      ApplyStagesAnyOrder(first, columns, f, order[1..]);
      KeepPassingCompose(rows, columns, f, {order[0]}, set s | s in order[1..]);
      assert {order[0]} + (set s | s in order[1..]) == set s | s in order;
    }
  }

  /** Filtering by no stage keeps every row. */
  lemma {:induction false} KeepEmptyStages(rows: seq<Row>, columns: set<string>, f: FilterSettings)
    ensures KeepPassing(rows, columns, f, {}) == rows
    decreases |rows|
  {
    if rows != [] {
      KeepEmptyStages(rows[1..], columns, f);
    }
  }

  /** The order of the stages does not matter: two orders that run the same
      stages give the same rows, and the source's order gives Filtered. */
  lemma FilterOrderIndependent(t: Table, f: FilterSettings, order1: seq<Stage>, order2: seq<Stage>)
    requires (set s | s in order1) == (set s | s in order2)
    ensures ApplyStages(t.rows, t.columns, f, order1) == ApplyStages(t.rows, t.columns, f, order2)
    ensures ApplyStages(t.rows, t.columns, f, SourceOrder) == Filtered(t, f).rows
  {
    ApplyStagesAnyOrder(t.rows, t.columns, f, order1);
    ApplyStagesAnyOrder(t.rows, t.columns, f, order2);
    ApplyStagesAnyOrder(t.rows, t.columns, f, SourceOrder);
    assert (set s | s in SourceOrder) == AllStages by {
      assert SourceOrder[0] == GradeStage && SourceOrder[1] == StateStage && SourceOrder[2] == RegionStage;
      assert SourceOrder[3] == AmountStage && SourceOrder[4] == RateStage;
    }
  }

  /** Filtering the result again with the same filters changes nothing. */
  lemma FilteredIdempotent(t: Table, f: FilterSettings)
    ensures Filtered(Filtered(t, f), f) == Filtered(t, f)
  {
    KeepPassingCompose(t.rows, t.columns, f, AllStages, AllStages);
    assert AllStages + AllStages == AllStages;
  }

  // ---- The imperative engine ----

  /** `df[mask]` for an active stage: one pass over the rows keeping those
      whose mask holds. */
  method SelectRows(rows: seq<Row>, columns: set<string>, f: FilterSettings, s: Stage)
    returns (kept: seq<Row>)
    requires Active(s, columns, f)
    ensures kept == KeepPassing(rows, columns, f, {s})
  {
    kept := [];
    var i := 0;
    while i < |rows|
      invariant 0 <= i <= |rows|
      invariant kept == KeepPassing(rows[..i], columns, f, {s})
    {
      assert rows[..i + 1] == rows[..i] + [rows[i]];
      KeepPassingAppend(rows[..i], [rows[i]], columns, f, {s});
      if MaskHolds(s, f, rows[i]) {
        kept := kept + [rows[i]];
      }
      i := i + 1;
    }
    assert rows[..i] == rows;
  }

  /** `frame[mask]`: a new frame with the same columns and the selected rows. */
  method Narrow(frame: Frame, f: FilterSettings, s: Stage) returns (sub: Frame)
    requires Active(s, frame.columns, f)
    ensures fresh(sub)
    ensures sub.Model() == Table(frame.columns, KeepPassing(frame.rows, frame.columns, f, {s}))
  {
    var kept := SelectRows(frame.rows, frame.columns, f, s);
    sub := new Frame(Table(frame.columns, kept));
  }

  /** Accounts for one stage: running it (when active) on the rows that
      passed `done` leaves the rows that pass `done + {s}`. */
  lemma StageStep(rows: seq<Row>, columns: set<string>, f: FilterSettings, done: set<Stage>, s: Stage)
    ensures Active(s, columns, f) ==>
      KeepPassing(KeepPassing(rows, columns, f, done), columns, f, {s})
        == KeepPassing(rows, columns, f, done + {s})
    ensures !Active(s, columns, f) ==>
      KeepPassing(rows, columns, f, done) == KeepPassing(rows, columns, f, done + {s})
  {
    KeepPassingCompose(rows, columns, f, done, {s});
    if !Active(s, columns, f) {
      InactiveStageKeepsAll(rows, columns, f, s, done);
    }
  }

  /** apply_filters: copies the frame, then narrows it stage by stage in the
      source's order; the argument frame is not modified. */
  method ApplyFilters(df: Frame, f: FilterSettings) returns (filtered: Frame)
    ensures fresh(filtered)
    ensures filtered.Model() == Filtered(df.Model(), f)
  {
    var rows0, columns := df.rows, df.columns;
    filtered := df.Copy();
    KeepEmptyStages(rows0, columns, f);

    ghost var done: set<Stage> := {};
    assert filtered.Model() == Table(columns, KeepPassing(rows0, columns, f, done));

    StageStep(rows0, columns, f, done, GradeStage);
    if Truthy(f.grades) && GradeColumn in filtered.columns {
      filtered := Narrow(filtered, f, GradeStage);
    }
    done := done + {GradeStage};
    assert filtered.Model() == Table(columns, KeepPassing(rows0, columns, f, done));

    StageStep(rows0, columns, f, done, StateStage);
    if Truthy(f.states) && StateColumn in filtered.columns {
      filtered := Narrow(filtered, f, StateStage);
    }
    done := done + {StateStage};
    assert filtered.Model() == Table(columns, KeepPassing(rows0, columns, f, done));

    StageStep(rows0, columns, f, done, RegionStage);
    if Truthy(f.regions) && RegionColumn in filtered.columns {
      filtered := Narrow(filtered, f, RegionStage);
    }
    done := done + {RegionStage};
    assert filtered.Model() == Table(columns, KeepPassing(rows0, columns, f, done));

    StageStep(rows0, columns, f, done, AmountStage);
    if AmountColumn in filtered.columns {
      filtered := Narrow(filtered, f, AmountStage);
    }
    done := done + {AmountStage};
    assert filtered.Model() == Table(columns, KeepPassing(rows0, columns, f, done));

    StageStep(rows0, columns, f, done, RateStage);
    if RateColumn in filtered.columns {
      filtered := Narrow(filtered, f, RateStage);
    }
    done := done + {RateStage};
    assert done == AllStages;
  }
}

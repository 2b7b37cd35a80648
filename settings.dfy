/** The constant lookup tables of the dashboard's configuration
    (config/settings.py): grade order, ordinal grade numbers, status colours,
    purpose options and average rates by grade. */
module Settings {

  /** Credit grades from best to worst. */
  const GradeOrder: seq<string> := ["A", "B", "C", "D", "E", "F", "G"]

  /** Ordinal grade number, A = 1 (best) to G = 7 (worst). */
  const GradeNumMapping: map<string, int> :=
    map["A" := 1, "B" := 2, "C" := 3, "D" := 4, "E" := 5, "F" := 6, "G" := 7]

  /** Display colour of each loan status label. */
  const StatusColors: map<string, string> :=
    map["Fully Paid" := "#38ef7d", "Current" := "#667eea",
        "Charged Off" := "#f5576c", "Unknown" := "#95a5a6"]

  /** Colour the status chart uses for a status missing from StatusColors. */
  const FallbackStatusColor: string := "#95a5a6"

  /** Loan purposes offered by the prediction form. */
  const PurposeOptions: seq<string> :=
    ["Debt consolidation", "Credit card", "Home improvement", "Major purchase",
     "Medical", "Car", "Vacation", "Moving", "Wedding", "Other"]

  /** Average interest rate (percent) of each grade, for comparison. */
  const AvgRatesByGrade: map<string, real> :=
    map["A" := 7.5, "B" := 10.5, "C" := 13.5, "D" := 17.0,
        "E" := 20.0, "F" := 23.0, "G" := 26.0]

  /** No two entries of `s` are equal. */
  predicate Distinct<T(==)>(s: seq<T>) {
    forall i, j :: 0 <= i < j < |s| ==> s[i] != s[j]
  }

  /** The letter of an upper-case ASCII letter string of length one. */
  predicate IsGradeLetter(g: string) {
    |g| == 1 && 'A' <= g[0] <= 'G'
  }

  /** GRADE_ORDER lists the seven letters A..G, each once, in alphabetical
      (best-to-worst) order. */
  lemma GradeOrderIsLetters()
    ensures |GradeOrder| == 7 && Distinct(GradeOrder)
    ensures forall i :: 0 <= i < 7 ==> GradeOrder[i] == [('A' as int + i) as char]
    ensures forall g :: g in GradeOrder <==> IsGradeLetter(g)
  {
    forall g | IsGradeLetter(g) ensures g in GradeOrder {
      var k := g[0] as int - 'A' as int;
      assert g == [('A' as int + k) as char];
      assert g == GradeOrder[k];
    }
  }

  /** GRADE_NUM_MAPPING numbers the grades by their position in GRADE_ORDER,
      starting at one, and has no other keys. */
  lemma GradeNumMappingFollowsOrder()
    ensures GradeNumMapping.Keys == set g | g in GradeOrder
    ensures forall i :: 0 <= i < |GradeOrder| ==> GradeNumMapping[GradeOrder[i]] == i + 1
  {
  }

  /** STATUS_COLORS has an entry for exactly the four derived status labels,
      and its 'Unknown' colour is the chart's fallback colour. */
  lemma StatusColorsCoverLabels()
    ensures StatusColors.Keys == {"Charged Off", "Current", "Fully Paid", "Unknown"}
    ensures StatusColors["Unknown"] == FallbackStatusColor
  {
  }

  /** PURPOSE_OPTIONS has ten distinct entries, 'Debt consolidation' first. */
  lemma PurposeOptionsDistinct()
    ensures |PurposeOptions| == 10 && Distinct(PurposeOptions)
    ensures PurposeOptions[0] == "Debt consolidation"
  {
  }

  /** AVG_RATES_BY_GRADE has the grades as keys and rises strictly from
      7.5 for A to 26.0 for G. */
  lemma AvgRatesIncreaseAlongGrades()
    ensures AvgRatesByGrade.Keys == set g | g in GradeOrder
    ensures forall i, j :: 0 <= i < j < |GradeOrder| ==>
      AvgRatesByGrade[GradeOrder[i]] < AvgRatesByGrade[GradeOrder[j]]
    ensures AvgRatesByGrade[GradeOrder[0]] == 7.5 && AvgRatesByGrade[GradeOrder[6]] == 26.0
  {
  }
}

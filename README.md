# Loan analytics dashboard: verified model of the data core

This project models, in Dafny, the pure data logic of a loan-portfolio
dashboard. That logic sits between the loaded loan table and the pre-trained
interest-rate model. It has seven parts:

- **Loan-status deriver.** Rebuilds a categorical `loan_status` column from the
  three one-hot columns `loan_status_Charged Off`, `loan_status_Current` and
  `loan_status_Fully Paid`. The precedence is fixed: Charged Off, then Current,
  then Fully Paid, else Unknown. The table-level operation either recomputes the
  column, fills it with `Unknown`, or leaves the table alone. It works on a copy.
- **Instalment (PMT) formula.** The closed-form amortised payment, with a
  straight-line fallback when the monthly rate is not positive.
- **Grade encoder.** `grade_index * 5 + (6 - sub_grade)`, where G = 0 … A = 6.
  The letter is upper-cased first. An unknown letter counts as index 0. The
  sub-grade goes through Python's `int()`.
- **7-feature encoder.** Builds `[dti, loan_amount, term_months, grade_encoded,
  verification_status_Verified, verification_status_Not Verified, purpose_debt]`:
  zeroed slots, then overwritten one at a time, then read out in the declared order.
- **Rate classifier.** Splits a percentage rate into five buckets at 8, 12, 16 and
  20 (strict `<`). Each bucket comes with a colour and a description.
- **Filter engine.** Copies the table, then narrows it in five stages: grade,
  state and region membership, then inclusive amount and rate ranges.
- **Configuration tables.** Grade order, ordinal grade numbers, status colours,
  purpose options and average rates by grade.

Layout. There is one module per component:

- `Settings`: the configuration tables.
- `LoanStatus`, `Amortization`, `GradeEncoding`, `Features`, `RateCategory`:
  one module each for the five helpers.
- `Filters`: the filter engine.
- `Frames` holds the table:
  - a cell value `Num(real) | Text(string)`;
  - a row, which maps column names to cells;
  - the `Table` value: a column set plus a sequence of rows;
  - the `Frame` class, a data frame with `Copy` and in-place `AssignColumn`.
- `Optional` holds `Option`. It stands for a missing dictionary key, and for
  the `ValueError` that `int()` raises.

A cell missing from a row's map is an empty (NaN) cell. It is never equal to 1
and fails both `>=` and `<=`, as NaN does in pandas. It also fails every `isin`
test. pandas `isin` would match a NaN cell if the list held NaN, but a filter
list in the model is a sequence of cell values and cannot hold an empty cell.
The sidebar builds its lists from `dropna()` (components/sidebar.py:45, 57, 69),
so they never hold NaN either.

The operations that change state in the source are methods. These are the
column assignment on a copied frame, the row-wise `apply`, the feature
dictionary that is overwritten slot by slot, and the stage-by-stage narrowing
of the filtered frame. Each method is proved equal to a specification
function, and the properties are proved as lemmas about those functions.
Neither `CreateLoanStatusColumn` nor `ApplyFilters` has a `modifies` clause,
so the verifier itself establishes that the input frame is left untouched.

Two edge cases of the code, stated as the code has them:

- **Grade code range.** The formula at utils/helpers.py:67 gives 35 for A/1
  and 1 for G/5, so valid pairs encode into 1..35, not 0..34.
- **Sub-grade errors.** `int(sub_grade)` raises `ValueError` on text that is
  not an integer. The model returns `None` in that case, and the feature
  encoder passes the `None` on.

## Model

| member | source | states |
|---|---|---|
| Settings.GradeOrderIsLetters | config/settings.py:148 | GRADE_ORDER has seven distinct entries, the i-th is the letter 'A'+i, and a string is in it iff it is one letter A..G |
| Settings.GradeNumMappingFollowsOrder | config/settings.py:148-149 | GRADE_NUM_MAPPING's keys are exactly the GRADE_ORDER letters and it maps GRADE_ORDER[i] to i+1 (A→1 … G→7) |
| Settings.StatusColorsCoverLabels | config/settings.py:152-157 | STATUS_COLORS has exactly the four labels Charged Off, Current, Fully Paid, Unknown as keys; its Unknown colour equals the chart's fallback colour '#95a5a6' |
| Settings.PurposeOptionsDistinct | config/settings.py:160-171 | PURPOSE_OPTIONS has ten pairwise distinct entries, 'Debt consolidation' first |
| Settings.AvgRatesIncreaseAlongGrades | config/settings.py:174-177 | AVG_RATES_BY_GRADE has the grade letters as keys and its values rise strictly along GRADE_ORDER from 7.5 to 26.0 |
| LoanStatus.StatusFromColumns | utils/helpers.py:10-20 | definition of get_loan_status_from_columns on one row; its properties are in StatusPrecedence, AbsentColumnIsUnset, StatusDependsOnFlagsOnly and StatusHasColor |
| LoanStatus.StatusPrecedence | utils/helpers.py:14-20 | the derived label is one of the four labels; each label is produced iff its flag is set and no earlier flag is (Charged Off over Current over Fully Paid), Unknown iff no flag is set |
| LoanStatus.AbsentColumnIsUnset | utils/helpers.py:14-19 | a status column missing from the table gives the same label as the column present with 0 in the row |
| LoanStatus.StatusDependsOnFlagsOnly | utils/helpers.py:10-20 | rows that agree on the three status cells get the same label, whatever their other cells hold (no cross-column or cross-row dependency) |
| LoanStatus.StatusHasColor | config/settings.py:152-157 | every label the deriver can produce is a key of STATUS_COLORS |
| LoanStatus.PresentColumns | utils/helpers.py:29-30 | the list comprehension over status columns keeps exactly the names that are both listed and present among the table's columns |
| LoanStatus.PlanFor | utils/helpers.py:32-36 | the deriver recomputes iff some status column exists, fills with Unknown iff none exists and loan_status is absent, and leaves the table iff none exists and loan_status is present |
| LoanStatus.WithLoanStatus | utils/helpers.py:23-37 | definition of the table create_loan_status_column returns; its properties are in WithLoanStatusCases and WithLoanStatusIdempotent, and CreateLoanStatusColumn is proved equal to it |
| LoanStatus.WithLoanStatusCases | utils/helpers.py:27-37 | in every case the row count is kept and every cell outside loan_status is unchanged; recompute writes each row's derived label, fill writes Unknown, and otherwise the table is returned as it was; rows whose cells lie within the table's columns still do afterwards |
| LoanStatus.WithLoanStatusIdempotent | utils/helpers.py:23-37 | deriving the loan_status column a second time gives the same table as deriving it once |
| LoanStatus.DeriveStatuses | utils/helpers.py:33 | the row-wise apply yields one label per row, the i-th being the derived label of row i |
| LoanStatus.CreateLoanStatusColumn | utils/helpers.py:23-37 | returns a fresh frame whose table is the specified loan_status table of the input's; the input frame is not modified |
| Amortization.CalculateInstallment | utils/helpers.py:40-50 | definition of the PMT formula with its straight-line fallback; its properties are in InstallmentBranches, InstallmentLinear, InstallmentPositive and InstallmentPaysOff |
| Amortization.PowAboveOne | utils/helpers.py:46-47 | (1+r)^n > 1 for r > 0 and n ≥ 1, so the PMT denominator is never zero |
| Amortization.InstallmentBranches | utils/helpers.py:44-50 | for rate ≤ 0 the instalment is loan_amount/term_months; for rate > 0, with r = rate/12 and g = (1+r)^n, g > 1 and instalment·(g−1) = loan_amount·r·g |
| Amortization.InstallmentLinear | utils/helpers.py:44-50 | scaling the principal by k scales the instalment by k, in both branches |
| Amortization.InstallmentPositive | utils/helpers.py:44-50 | a positive principal and a positive term give a positive instalment, for every rate |
| Amortization.InstallmentPaysOff | utils/helpers.py:40-50 | for every non-negative rate, paying the instalment each month for the whole term, with the balance accruing rate/12 a month, leaves exactly zero |
| Amortization.InstallmentWithoutInterestExample | utils/helpers.py:48-49 | 12000 over 24 months at rate 0 gives 500 a month |
| GradeEncoding.Upper | utils/helpers.py:64 | ASCII upper-casing (`grade.upper()` on ASCII text) keeps the length and leaves no lower-case ASCII letter; a character changes iff it is a lower-case letter, and then it becomes the capital 32 code points below |
| GradeEncoding.UpperIdempotent | utils/helpers.py:64 | upper-casing an already upper-cased grade changes nothing |
| GradeEncoding.ParseInt | utils/helpers.py:65 | definition of `int(sub_grade)`, None standing for ValueError; its properties are in ParseIntDecimal and ParseIntRejects |
| GradeEncoding.ParseIntDecimal | utils/helpers.py:65 | `int()` reads every decimal numeral back as its number, and with a leading minus sign as its negation |
| GradeEncoding.ParseIntWhitespaceExamples | utils/helpers.py:65 | `int()` reads " 5\n" and an ideographic space before 5 as 5, and rejects a file separator (U+001C) before 5 |
| GradeEncoding.ParseIntRejects | utils/helpers.py:65 | `int()` of a text made only of whitespace and lower-case letters fails (ValueError) |
| GradeEncoding.GradeIndex | utils/helpers.py:63-64 | the grade index lies in 0..6 for every input string |
| GradeEncoding.GradeIndexOfLetter | utils/helpers.py:63-64 | the i-th letter of GRADE_ORDER has grade index 6 − i |
| GradeEncoding.EncodeGrade | utils/helpers.py:63-67 | definition of `grade_index * 5 + (6 - sub_grade_num)`; its properties are in GradeEncodedRange, GradeEncodedRoundTrip, GradeDecodeRoundTrip, GradeEncodedInjective and the ordering lemmas below |
| GradeEncoding.CalculateGradeEncoded | utils/helpers.py:53-67 | fails exactly when `int(sub_grade)` fails; for a letter A..G in either case and a sub-grade that parses to 1..5, the code lies in 1..35 and decodes back to the upper-cased letter and that sub-grade |
| GradeEncoding.GradeIndexMatchesGradeNum | utils/helpers.py:63 | for every grade letter the grade index equals 7 − GRADE_NUM_MAPPING[letter] |
| GradeEncoding.GradeEncodedEndpoints | utils/helpers.py:63-67 | ("A","1") encodes to 35 and ("G","5") to 1 |
| GradeEncoding.GradeEncodedRange | utils/helpers.py:67 | every valid pair (letter A..G, sub-grade 1..5) encodes into 1..35 |
| GradeEncoding.DecodeGrade | utils/helpers.py:63-67 | every code in 1..35 decodes to a valid letter/sub-grade pair |
| GradeEncoding.GradeEncodedRoundTrip | utils/helpers.py:63-67 | decoding the code of a valid pair gives back that pair |
| GradeEncoding.GradeDecodeRoundTrip | utils/helpers.py:63-67 | encoding the decoded pair of a code in 1..35 gives back that code, so the valid pairs and 1..35 correspond one to one |
| GradeEncoding.GradeEncodedInjective | utils/helpers.py:63-67 | two valid pairs with the same code are the same pair |
| GradeEncoding.GradeEncodedDecreasesWithSubGrade | utils/helpers.py:67 | within one letter a higher sub-grade number gives a strictly lower code |
| GradeEncoding.GradeEncodedBetterLetterWins | utils/helpers.py:63-67 | every sub-grade of a better letter has a higher code than every sub-grade of a worse letter |
| GradeEncoding.GradeEncodedIgnoresCase | utils/helpers.py:64 | a grade string and its upper-cased form encode the same |
| GradeEncoding.UnknownLetterEncodesAsG | utils/helpers.py:64 | a grade that is not A..G after upper-casing encodes exactly like G |
| Features.FeatureVector | utils/helpers.py:70-135 | definition of the seven-feature record; its properties are in FeatureVectorContents, VerificationSlotCases and OnePurposeSetsDebtSlot, and ProcessPredictionInput is proved equal to it |
| Features.ProcessPredictionInput | utils/helpers.py:70-135 | the zeroed dictionary overwritten as the inputs say and read out in FEATURE_NAMES order is the specified record, seven values long, or None when the grade encoding fails |
| Features.FeatureVectorContents | utils/helpers.py:104-135 | the record exists iff the grade encodes; it has seven values in declared order with dti, loan_amount, term_months copied, grade_encoded from the grade encoder, 0/1 slots never both 1 for verification, a verification class that reads back from its slots, and purpose_debt = 1 iff purpose is exactly 'Debt consolidation' |
| Features.VerificationSlotCases | utils/helpers.py:123-128 | 'Verified' gives (1,0), 'Not Verified' gives (0,1), and every other string, 'Source Verified' included, gives (0,0) |
| Features.OnePurposeSetsDebtSlot | utils/helpers.py:130-132 | of the ten PURPOSE_OPTIONS exactly the first, 'Debt consolidation', sets purpose_debt |
| RateCategory.GetRateCategory | utils/helpers.py:138-154 | definition of the if-chain; its properties are in ClassifierMatchesRank, BucketIntervals, RankMonotone, BucketsDistinct, CategoryDeterminesColor and BoundaryExamples |
| RateCategory.Rank | utils/helpers.py:145-154 | every rate has a bucket rank below five |
| RateCategory.ClassifierMatchesRank | utils/helpers.py:145-154 | the if-chain returns the bucket whose index is the number of thresholds 8, 12, 16, 20 the rate has reached, so it is total over five buckets |
| RateCategory.RankMonotone | utils/helpers.py:145-154 | a higher rate never gets a better bucket |
| RateCategory.BucketsDistinct | utils/helpers.py:145-154 | the five buckets have pairwise different category names and pairwise different colours |
| RateCategory.CategoryDeterminesColor | utils/helpers.py:145-154 | two rates with the same category get the same colour and description, and two rates share a colour only when they share the category |
| RateCategory.BucketIntervals | utils/helpers.py:145-154 | each category is produced iff the rate lies in its half-open interval (<8, [8,12), [12,16), [16,20), ≥20) |
| RateCategory.BoundaryExamples | utils/helpers.py:145-154 | 7.99 → Excellent, 8 → Good, 11.99 → Good, 12 → Average, 16 and 19.99 → Below Average, 20 → High Risk |
| Frames.Frame.Copy | utils/helpers.py:27 | `df.copy()` (also components/sidebar.py:119) returns a fresh frame holding the same table |
| Frames.Frame.AssignColumn | utils/helpers.py:33-35 | `df['loan_status'] = …` adds the column and sets the i-th row's cell to the i-th value, keeping the row count and every other cell |
| Optional.Option.GetOr | components/sidebar.py:135-143 | definition of `dict.get(key, default)` as used for the two range settings (lines 135 and 143) |
| Filters.MaskHolds | components/sidebar.py:122-147 | definition of one stage's boolean mask (`isin` for the set stages, both inclusive bounds for the range stages); its properties are in SetFilterMembership and RangeFilterBounds |
| Filters.KeepPassing | components/sidebar.py:117-149 | definition of the rows surviving a set of stages, in input order; its properties are in KeepPassingMembers, KeepPassingMultiset, KeepPassingIsSubsequence, KeepPassingCompose and the lemmas below |
| Filters.Filtered | components/sidebar.py:117-149 | definition of the table apply_filters returns; its properties are in FilteredMembers, FilterOrderIndependent and FilteredIdempotent, and ApplyFilters is proved equal to it |
| Filters.KeepPassingMembers | components/sidebar.py:122-147 | a row is kept iff it is an input row passing every stage in the set |
| Filters.KeepPassingIsSubsequence | components/sidebar.py:119-149 | the kept rows are a subsequence of the input rows: rows are dropped, never changed or reordered |
| Filters.KeepPassingCompose | components/sidebar.py:122-147 | filtering by one stage set and then by another is filtering by their union |
| Filters.InactiveStageKeepsAll | components/sidebar.py:122-147 | a stage that apply_filters skips keeps every row and leaves any combination with other stages unchanged |
| Filters.SetFilterNoOp | components/sidebar.py:122-131 | a grade, state or region filter whose list is missing or empty, or whose column is absent, keeps every row |
| Filters.SetFilterMembership | components/sidebar.py:122-131 | an active set filter keeps a row iff the row has a value in that column and the value is in the list |
| Filters.RangeFilterBounds | components/sidebar.py:134-147 | range filters are skipped when their column is absent, inclusive at both ends otherwise, and default to [0, ∞) for loan_amount and [0, 1] for int_rate when the key is missing |
| Filters.FilteredMembers | components/sidebar.py:117-149 | the result keeps the columns, is a subsequence of the input rows, holds a row iff it is an input row satisfying every active filter, keeps each such row as often as the input has it and drops every other, and keeps every cell within the table's columns when the input does |
| Filters.KeepPassingMultiset | components/sidebar.py:122-147 | a row passing every stage is kept exactly as many times as it occurs among the input rows; a failing row is not kept at all |
| Filters.ApplyStagesAnyOrder | components/sidebar.py:122-147 | running the stages one after the other in any order keeps exactly the rows passing all of them |
| Filters.FilterOrderIndependent | components/sidebar.py:122-147 | two orders running the same stages give the same rows, and the source's order gives the specified result |
| Filters.FilteredIdempotent | components/sidebar.py:117-149 | filtering the result again with the same filters returns it unchanged |
| Filters.SelectRows | components/sidebar.py:123 | one pass of a stage's boolean mask keeps exactly the rows passing that stage, in order |
| Filters.Narrow | components/sidebar.py:136-139 | boolean indexing gives a fresh frame with the same columns and the selected rows |
| Filters.StageStep | components/sidebar.py:121-147 | running an active stage on the rows that passed the earlier stages leaves the rows passing all of them; skipping an inactive stage loses nothing |
| Filters.ApplyFilters | components/sidebar.py:117-149 | copies the frame, runs the five stages under the source's conditions, and returns a fresh frame equal to the specified filtered table; the input frame is not modified |

## Left out

- Streamlit rendering is not modelled: `render_sidebar`, `show_filtered_count`, the tabs, header, KPI cards and `main`. These are widget and layout calls with no stated behaviour. The filter dictionary they produce is a parameter of the model.
- Plotly chart construction and aggregation in charts/visualizations.py are not modelled. This includes the random sampling. Only the fallback colour at charts/visualizations.py:129 is used.
- Dataset and model loading (utils/data_loader.py, utils/model_loader.py) are not modelled. Their caching and `model.predict` are external I/O and a foreign black box.
- The prediction tab is UI. Its call to `process_prediction_input` passes keyword arguments that the function does not accept, so it raises `TypeError` and the tab shows an error. The tab's percentage rescaling and estimated-rate step are small float steps inside UI code. The 19-feature schemas have no implementing code and are not modelled.
- `format_currency` and `format_percentage` are not modelled: they rely on Python float formatting.
- IEEE-754 floating point is not modelled. Amounts, rates and DTI are exact reals. NaN is an empty cell, and infinity is only an upper range bound.
- Amortization.InstallmentPaysOff: holds for non-negative rates only. With a negative rate the source still pays `loan_amount / term_months`, which does not amortise a loan at negative interest.
- Amortization.CalculateInstallment: requires `term_months > 0`. In Python a zero term divides by zero. A negative term still computes a value in Python in both branches: the PMT formula for a positive rate, and `loan_amount / term_months` at utils/helpers.py:49 for a rate of zero or below. The model excludes negative terms for every rate.
- Amortization.CalculateInstallment: the instalment's growth with the rate (for a fixed principal) is not proved. The model proves linearity, positivity and full pay-off instead.
- GradeEncoding.ParseInt: models `int()` for surrounding whitespace (tab to carriage return and space, plus the non-ASCII characters `str.isspace()` accepts; U+001C–U+001F, which `str.isspace()` also accepts, are rejected by `int()`), one optional sign and ASCII digits. Underscore digit separators and non-ASCII digits, both of which Python accepts, are not modelled.
- GradeEncoding.Upper: upper-cases ASCII only. No non-ASCII character upper-cases to one of the letters A..G, so the grade lookup is unaffected.
- Filters.MaskHolds: a text cell in the `loan_amount` or `int_rate` column fails the range test. pandas would instead raise `TypeError` when comparing text with numbers.
- pandas dtype coercion is not modelled. This includes boolean one-hot columns compared with `== 1`, and `isin` matching across numeric types. A flag is set when its cell is the number 1.

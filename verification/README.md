# RFM customer scoring, modelled in Dafny

This project models the core of a bank-transaction RFM (Recency, Frequency,
Monetary) analysis pipeline. The model has three stages, each an in-memory
transform of a table of rows.

- **Cleaner** (`preprocess_data`):
  - drops every row whose `TransactionID` was already seen, keeping the first occurrence;
  - then drops every row with a missing cell in any column;
  - then coerces the date column, so a date that fails to parse becomes missing (NaT).
- **Aggregator** (`calculate_rfm_metrics`):
  - fixes a reference date: the latest transaction date plus one day;
  - groups the rows by `CustomerID`, in ascending key order;
  - computes Recency (whole days from the customer's latest date to the reference date), Frequency (the row count) and Monetary (the sum of amounts);
  - adds demographics: the first row's DOB, gender and location, and the last row's balance;
  - joins the two tables with a left merge.
- **Scorer** (`calculate_rfm_scores`):
  - bins each metric into quintiles;
  - labels Recency 5..1 and Frequency and Monetary 1..5;
  - converts the labels to integers;
  - adds `RFM_Score`, the sum of the three scores, and `RFM_Group`, their decimal digits concatenated;
  - writes each column into the caller's table as it goes.

Files:

- `common.dfy` (module `Common`): missing cells (`Option`), `Result`, Python's string order and the sorted distinct keys `groupby` iterates over.
- `cleaner.dfy` (module `Cleaner`): the cleaner.
  - The stages are specification functions on sequences.
  - `PreprocessData` runs them as three loops; the duplicate stage uses a seen-id set.
  - Lemmas state what the cleaned table satisfies.
- `aggregator.dfy` (module `Aggregator`): the group-by, the folds over one group, and the left merge, as recursive functions, with lemmas about the output table.
- `scorer.dfy` (module `Scorer`):
  - `Bin` and `QCut` model the quintile labelling.
  - `Score` gives the columns the scorer leaves and the error it raises.
  - The class `RfmTable` is the caller's table.
  - The method `CalculateRfmScores` assigns the columns into it one after another.

Conventions:

- A missing cell (NaN/NaT) is `None`.
- Dates are integer timestamps in nanoseconds, and `DAY` is 86 400 000 000 000 ns.
- `Timedelta.days` rounds toward minus infinity, which for the positive `DAY` is Dafny's `/`.

## Model

| member | source | states |
|---|---|---|
| Common.SortedKeysSpec | data_processor.py:72 | the `groupby` keys are strictly ascending in Python string order, distinct, and exactly the ids that occur in the column |
| Common.InsertKeepsSorted | data_processor.py:72 | adding one key to an ascending key list keeps it ascending and adds exactly that key |
| Cleaner.PreprocessData | data_processor.py:30-57 | the three stages run as loops produce exactly the cleaner's result: `None` for absent input, otherwise dedup, then dropna, then date coercion |
| Cleaner.DropDuplicateIdsLoop | data_processor.py:46 | a scan with a set of seen ids gives the keep-first deduplication |
| Cleaner.DropMissingLoop | data_processor.py:53 | a scan that keeps complete rows gives the missing-value filter |
| Cleaner.CoerceDatesLoop | data_processor.py:56 | a scan that converts every row gives the row-wise date coercion |
| Cleaner.DropDuplicateIdsUnique | data_processor.py:46 | after deduplication no two rows share a `TransactionID`, and every id of the input still occurs |
| Cleaner.DropDuplicateIdsOrdered | data_processor.py:46 | deduplication yields an order-preserving subsequence of the input |
| Cleaner.DropDuplicateIdsKeepsFirst | data_processor.py:46 | every surviving row is the first input row carrying its id |
| Cleaner.DropDuplicateIdsOnUnique | data_processor.py:46 | a table whose ids are already distinct is left unchanged |
| Cleaner.DropMissingComplete | data_processor.py:53 | no row left by `dropna` has a missing cell |
| Cleaner.DropMissingKeepsComplete | data_processor.py:53 | every complete input row survives `dropna` |
| Cleaner.DropMissingOrdered | data_processor.py:53 | `dropna` yields an order-preserving subsequence of its input |
| Cleaner.DropMissingOnComplete | data_processor.py:53 | a table with no missing cell is left unchanged |
| Cleaner.FilteringIdempotent | data_processor.py:46-53 | running either filter twice gives the same table as running it once |
| Cleaner.FilteredRowsSpec | data_processor.py:46-53 | the rows that survive both filters are an order-preserving subsequence of the input, complete, with unique ids, each the first row of its id; every complete first occurrence survives |
| Cleaner.PreprocessSpec | data_processor.py:32-57 | absent input iff absent output; each output row carries the values of the surviving row at the same position, and its date is the parse of that row's date text, so a row whose date does not parse is kept with a missing date |
| Aggregator.CalculateRfmMetrics | data_processor.py:65-67 | absent input gives absent output, and present input always gives a table |
| Aggregator.CustomerRowsSpec | data_processor.py:72 | a customer's group holds exactly that customer's rows and is non-empty for every id present |
| Aggregator.CustomersHaveRows | data_processor.py:72 | every group key has at least one row |
| Aggregator.GroupStartsAtFirstRow | data_processor.py:82-84 | the first row of a group is the customer's first row in table order |
| Aggregator.GroupEndsAtLastRow | data_processor.py:85 | the last row of a group is the customer's last row in table order |
| Aggregator.DemographicsFromFirstAndLast | data_processor.py:81-86 | DOB, gender and location come from the customer's first row, the balance from the last |
| Aggregator.LatestDateSpec | data_processor.py:69 | `max()` bounds every parsed date, is attained by some row, and is NaT exactly when every date is NaT |
| Aggregator.GroupLatestBounded | data_processor.py:69-73 | a customer's latest date never passes the table's latest date |
| Aggregator.RecencyAtLeastOne | data_processor.py:69-73 | every defined Recency is at least one day |
| Aggregator.LatestCustomerRecencyOne | data_processor.py:69-73 | a customer holding the table's latest date has Recency exactly one |
| Aggregator.RecencyDefinedIff | data_processor.py:73 | Recency is defined exactly when some row of the customer has a parsed date |
| Aggregator.MatchesOfDistinctKeys | data_processor.py:89 | with distinct keys on the right, a right key matches exactly its own row |
| Aggregator.LeftMergeOneToOne | data_processor.py:89 | when each left key matches one right row, the left merge keeps every left row once, in order, with that row's demographics |
| Aggregator.RfmRowsSpec | data_processor.py:69-89 | output row k belongs to the k-th customer in ascending id order and holds that customer's Recency, row count, amount total and first/last demographics; no row is left unmatched |
| Aggregator.OneRowPerCustomer | data_processor.py:72-78 | ids in the output are strictly ascending (never repeated) and are exactly the customers of the input |
| Aggregator.MetricBounds | data_processor.py:72-76 | every Frequency is at least one and every defined Recency at least one |
| Aggregator.MinimumRecencyIsOne | data_processor.py:69-73 | when any date parsed, some customer has Recency exactly one |
| Aggregator.TotalsPreserved | data_processor.py:74-75 | the Frequencies add up to the number of rows and the Monetary values to the total amount |
| Scorer.Bin | rfm_analyzer.py:18-20 | the bin is in 1..5 and its interval (left-open except the first) holds the value |
| Scorer.BinUnique | rfm_analyzer.py:18-20 | that bin is the only one whose interval holds the value |
| Scorer.BinMonotone | rfm_analyzer.py:18-20 | a larger value never lands in a lower bin |
| Scorer.QCutLabel | rfm_analyzer.py:18-20 | `qcut` gives a NaN value a NaN label, and a present value the label of the bin b whose interval holds it: e[b-1] < x <= e[b], or e[0] <= x <= e[1] for the first bin |
| Scorer.GroupTextShape | rfm_analyzer.py:27-31 | for scores 1..5 the group text is three characters in '1'..'5' that read back as R, F and M |
| Scorer.NatTextRoundTrip | rfm_analyzer.py:28-30 | `str` of a non-negative integer is made of digits and reads back as that integer |
| Scorer.AssignAppends | rfm_analyzer.py:18-20 | assigning a column under a new name appends it and keeps every other column |
| Scorer.AssignReplaces | rfm_analyzer.py:23 | assigning under an existing name replaces that column in place and keeps the others |
| Scorer.CalculateRfmScores | rfm_analyzer.py:9-36 | absent table gives `None`; otherwise the rows are untouched, the table's added columns become those of the scoring, and the table is returned or the scoring's error raised |
| Scorer.ScoringSucceedsIff | rfm_analyzer.py:18-23 | scoring raises exactly when the table is empty, some Recency is NaN, or a metric's edges are not all distinct |
| Scorer.ScoringFailureLeavesOnlyLabels | rfm_analyzer.py:18-23 | a failed scoring writes no integer score: the caller's columns stay, followed by at most the categorical `R_Score`, `F_Score`, `M_Score` written before the failure |
| Scorer.ScoringAddsFiveColumns | rfm_analyzer.py:18-31 | a successful scoring keeps the caller's columns and appends exactly `R_Score` (6 minus the Recency bin), `F_Score` and `M_Score` (the bins), `RFM_Score` (their sum) and `RFM_Group` (their texts), one entry per row |
| Scorer.ScoresInRange | rfm_analyzer.py:18-26 | every score is in 1..5 and every `RFM_Score` in 3..15 |
| Scorer.GroupsSpellScores | rfm_analyzer.py:27-31 | every `RFM_Group` is three characters in '1'..'5': the row's R, F and M digits in order |
| Scorer.ScoresMonotone | rfm_analyzer.py:19-20 | `F_Score` and `M_Score` never decrease as their metric grows, so equal metrics get equal scores |
| Scorer.RecencyScoreReversed | rfm_analyzer.py:18 | `R_Score` never increases as Recency grows; the lowest Recency bin scores 5 and the highest scores 1 |

## Left out

- `fetch_data` (CSV file reading and its exception handling) is I/O and is not part of this model.
- `prepare_for_clustering` and the module-level `StandardScaler` are left out. They are floating-point numerics (`log1p`, standardisation) over shared library state.
- Every `print` diagnostic is left out. This includes the duplicate counts, the unique-customer count and the average `RFM_Score`, which are computed only for display.
- Text-to-timestamp parsing in `pd.to_datetime` is the parameter `parse`: an opaque function from the date text to a timestamp or `None`.
- Amounts and balances are integers (minor units). Floating-point sums and their rounding are not modelled.
- The cleaner works on a copy of the caller's table. Modelling tables as sequence values captures this: the caller's sequence cannot change.
- Aggregator: the input is a cleaned table, so only the date can be missing.
  - Every other cell is present, so `count` counts every row and `first`/`last` take the first and last row of the group.
  - On a table with missing ids, amounts or demographics, pandas would skip those cells; this is not modelled.
- Aggregator.CalculateRfmMetrics: for a present but empty table the code returns an empty table rather than failing. The model follows the code.
- Scorer.QCut: the quintile edges are parameters, not computed by quantile interpolation. They must be six non-decreasing reals that bracket every present value, which is what the interpolation guarantees. An empty or all-NaN column has NaN edges, which collapse into duplicates, so the model raises the duplicate-edges error there.
- Scorer.CalculateRfmScores: takes the edges of each metric as inputs and requires them to satisfy the condition above for the table's values. This is a condition on the parameters standing in for the library's computation, not on the caller.
- Scorer.ScoringFailureLeavesOnlyLabels: the scorer assigns into the caller's table before it can fail, so a failure at the Frequency or Monetary bins, or at the integer conversion, leaves categorical score columns behind. The model follows this; it does not state that a failure leaves the table untouched.
- `astype(str)` is modelled for the integer scores only, as their decimal text. The category dtype and its storage are not modelled.

# Hospital billing anomaly pipeline, modelled in Dafny

This project models the computational core of a hospital-billing anomaly
pipeline. The pipeline has three Hadoop MapReduce stages and a Python
pre-processing script.

- **Stage 1, `Phase1RegionBaselineComputation`.** The mapper keeps the
  billing records that pass a record check and emits
  `(region|yyyy-MM, amount)`. Every other line goes verbatim to the
  `invalid` side output, and exactly one counter records why. The
  reducer folds the count, the sum and the sum of squares of one key. It
  then writes `region,yearMonth,mean,stdDev`, with the variance clamped
  at zero.
- **Stage 2, `Phase2AnomalyLabeling`.** This is a map-only job.
  - `setup` loads the Stage 1 rows into a table
    `region|yearMonth -> (mean, stdDev)`.
  - `map` checks each record the way Stage 1 does and looks up its
    baseline.
  - The record is labelled with a z-score and an anomaly flag. The flag
    is forced true when the standard deviation is zero. Otherwise it is
    true when |z| >= 2.0.
- **Stage 3, `Phase3AnomalyAggregator`.** It counts the rows that Stage 2
  flagged, per region.
- **`dataset_mapping.py`.**
  - `allocate_hospitals_proportional` apportions hospitals to regions by
    population with the largest-remainder (Hamilton) method.
  - `assign_hospitals_to_regions` cuts a shuffled hospital list into
    consecutive slices, one slice per region.

All three stages share one field parser, `parseCSV`. It is a
`java.util.regex` scan with the pattern `"([^"]*)"|(?<=,|^)([^,]*)(?=,|$)`.

## Files

- `wrappers.dfy`: `Option`.
- `java_lang.dfy`: the parts of `java.lang` the stages call.
  - `String.indexOf`, `split` with limit -1 (and `String.join` as its
    inverse), `trim`, ASCII `equalsIgnoreCase` and `String.valueOf(boolean)`.
  - A `Numerics` bundle. It passes `Double.parseDouble`, `Math.sqrt` and
    the `%.6f` conversion as function-valued parameters.
- `csv_scanner.dfy`: the regex scan.
  - `MatchAt`, `Search` and `Find` model one `Matcher.find`.
  - `FieldsFrom` and `Fields` model the whole `find()` loop, as a
    recursive function over the search position.
  - `ParseCsv` is that loop as a method.
  - The file also proves what the scan reads back.
- `hadoop.dfy`: the part of the framework the stages touch.
  - The task `Context` is a class holding the counters, the main output
    and the side records.
  - The shuffle is a function from (key, value) pairs to one group per
    key.
- `billing_record.dfy`: the record check shared by Stages 1 and 2.
- `phase1.dfy`, `phase2.dfy`, `phase3.dfy`: the three stages, with
  lemmas that connect each stage to the one before it.
- `dataset_mapping.dfy`: the two allocation functions of the script. They
  are imperative. The dicts that the script walks with `items()` (the
  regions with their populations, `fractional_allocation`, and the
  allocation that `assign_hospitals_to_regions` cuts into slices) are
  sequences of pairs in insertion order, because that order breaks ties
  in the ranking and fixes the order of the slices. The allocation that
  `allocate_hospitals_proportional` returns and the hospital-to-region
  mapping are `map`s, and the hospital list is an `array`.

Three facts about the code shape the model:

- Stage 1 counts rejected lines under three counters (`MALFORMED_LINE`,
  `INVALID_FIELDS`, `INVALID_BILLING_AMOUNT`), one per cause.
- In Stage 2, a baseline row whose mean or standard deviation does not
  parse makes `setup` fail. The table is left as it stood at that line.
- No stage merges partial (count, sum, sumOfSquares) triples. The Stage 1
  reducer folds all values of one key in a single loop.

## Model

| member | source | states |
|---|---|---|
| JavaLang.Split | src/main/java/siia/alouane/Phase1RegionBaselineComputation.java:139 | `split(d, -1)` always returns at least one piece |
| JavaLang.SplitHasSeparator | src/main/java/siia/alouane/Phase1RegionBaselineComputation.java:139-140 | the split has two or more pieces exactly when the key contains the separator |
| JavaLang.SplitJoin | src/main/java/siia/alouane/Phase1RegionBaselineComputation.java:139 | splitting the join of separator-free pieces gives back those pieces |
| JavaLang.JoinSplit | src/main/java/siia/alouane/Phase1RegionBaselineComputation.java:139 | joining the pieces of a split with the same separator rebuilds the string |
| JavaLang.Trim | src/main/java/siia/alouane/Phase1RegionBaselineComputation.java:56-58 | the result has no white space at either end, is no longer than the input and uses only its characters, and is the input itself when that has no surrounding white space |
| JavaLang.TrimIsMiddle | src/main/java/siia/alouane/Phase1RegionBaselineComputation.java:56-58 | the result is a middle slice of the input: everything dropped before it and after it is white space |
| JavaLang.BooleanTextReadsBack | src/main/java/siia/alouane/Phase3AnomalyAggregator.java:67-69 | the `%b` text equals "true" ignoring case exactly when the flag was true |
| CsvScanner.MatchAt | src/main/java/siia/alouane/Phase1RegionBaselineComputation.java:29-30 | a match tried at i starts at i and ends within the line |
| CsvScanner.Search | src/main/java/siia/alouane/Phase1RegionBaselineComputation.java:97-98 | a match found by the search starts at or after the search position and ends within the line |
| CsvScanner.Find | src/main/java/siia/alouane/Phase1RegionBaselineComputation.java:97 | a match that `find` reports starts at or after the search position and ends within the line; once the search position is past the end, `find` fails |
| CsvScanner.NextFrom | src/main/java/siia/alouane/Phase1RegionBaselineComputation.java:97 | the next `find` resumes at the end of the previous match, or one past it when that match was empty, so it always starts after the previous match's start |
| CsvScanner.FieldsFrom | src/main/java/siia/alouane/Phase1RegionBaselineComputation.java:94-104 | the `find` loop from a matcher position collects no field once that position is past the end |
| CsvScanner.FieldsFromBound | src/main/java/siia/alouane/Phase1RegionBaselineComputation.java:94-104 | each `find` moves the matcher on, so the loop collects at most one field per position left in the line |
| CsvScanner.Fields | src/main/java/siia/alouane/Phase1RegionBaselineComputation.java:95-106 | parseCSV never fails and returns at least one field, because the unquoted alternative always matches at position 0 |
| CsvScanner.ParseCsv | src/main/java/siia/alouane/Phase1RegionBaselineComputation.java:95-106 | the `while (matcher.find())` loop collects exactly the fields of the scan |
| CsvScanner.SkipPosition | src/main/java/siia/alouane/Phase1RegionBaselineComputation.java:98 | where no alternative matches at i, the scan from i yields what the scan from i + 1 yields |
| CsvScanner.UnquotedFieldStep | src/main/java/siia/alouane/Phase1RegionBaselineComputation.java:101-102 | an unquoted field at a field start is the text up to the next comma, and the scan resumes after that comma or stops at the end of the line |
| CsvScanner.QuotedCellStep | src/main/java/siia/alouane/Phase1RegionBaselineComputation.java:99-100 | a quoted field at a field start, followed by a comma or the end of the line, yields the text between its quotes, and the scan resumes after the comma |
| CsvScanner.ScanCells | src/main/java/siia/alouane/Phase1RegionBaselineComputation.java:97-104 | readable cells that fill the line from a field start scan back into their texts, in order |
| CsvScanner.ReadsBackCells | src/main/java/siia/alouane/Phase1RegionBaselineComputation.java:97-104 | a comma-joined line of plain and quoted cells parses back into exactly the cells' texts |
| CsvScanner.UnquotedLineIsCommaSplit | src/main/java/siia/alouane/Phase1RegionBaselineComputation.java:97-104 | on a line without any quote, parseCSV is exactly `split(",", -1)`, empty and trailing empty fields included |
| CsvScanner.PlainRowReadsBack | src/main/java/siia/alouane/Phase1RegionBaselineComputation.java:97-104 | fields without commas or quotes, joined with commas, parse back into themselves |
| CsvScanner.QuotedFieldIsOneField | src/main/java/siia/alouane/Phase1RegionBaselineComputation.java:99-100 | a field written as `"b"` (no quote in b) between plain fields comes back as the single field b without its quotes, even when b holds commas |
| Hadoop.Incr | src/main/java/siia/alouane/Phase1RegionBaselineComputation.java:46 | incrementing a counter raises it by one and leaves every other counter as it was |
| Hadoop.Context.Increment | src/main/java/siia/alouane/Phase1RegionBaselineComputation.java:46 | the named counter goes up by one; the outputs are unchanged |
| Hadoop.Context.Write | src/main/java/siia/alouane/Phase1RegionBaselineComputation.java:75-77 | the pair is appended to the main output; the counters and side records are unchanged |
| Hadoop.Context.WriteSide | src/main/java/siia/alouane/Phase1RegionBaselineComputation.java:51 | the line is appended to the named side output; the counters and main output are unchanged |
| Hadoop.ValuesFor | src/main/java/siia/alouane/Phase3AnomalyAggregator.java:106 | a key has values exactly when some pair has that key |
| Hadoop.Shuffle | src/main/java/siia/alouane/Phase3AnomalyAggregator.java:106 | every group handed to a reducer call is non-empty |
| Hadoop.ShuffleKeys | src/main/java/siia/alouane/Phase3AnomalyAggregator.java:106 | a key has a group exactly when some emitted pair carries it |
| Hadoop.ShuffleDistinct | src/main/java/siia/alouane/Phase3AnomalyAggregator.java:106 | no two groups share a key |
| Hadoop.ShuffleGroup | src/main/java/siia/alouane/Phase3AnomalyAggregator.java:106-111 | a key's group holds every value emitted under that key, in order, and no other group has the key |
| Hadoop.ShuffleTotal | src/main/java/siia/alouane/Phase3AnomalyAggregator.java:109-114 | the per-group sums add up to the sum of all emitted values: each value is counted exactly once |
| BillingRecord.GroupKey | src/main/java/siia/alouane/Phase1RegionBaselineComputation.java:73 | the key is the region, then the bar separator, then the year-month, and each part can be read off at its position |
| BillingRecord.CheckRecord | src/main/java/siia/alouane/Phase1RegionBaselineComputation.java:49-70 | there are four outcomes, each with its exact condition, lengths counted in Unicode characters: fewer than 17 fields; empty trimmed region or trimmed date shorter than 7; an amount that does not parse; or valid with the trimmed region, the first 7 characters of the trimmed date and the parsed trimmed amount |
| Phase1RegionBaselineComputation.RejectionCounter | src/main/java/siia/alouane/Phase1RegionBaselineComputation.java:49-81 | each failed check has its own counter: `MALFORMED_LINE` exactly for too few fields, `INVALID_FIELDS` exactly for a blank region or short date, `INVALID_BILLING_AMOUNT` exactly for an amount that does not parse |
| Phase1RegionBaselineComputation.Classify | src/main/java/siia/alouane/Phase1RegionBaselineComputation.java:48-77 | a line is emitted exactly when its record is valid, under the region and year-month joined by the bar separator, with the parsed amount; otherwise it is rejected under one of the three rejection counters, and the counter is the one for the record's own cause: `MALFORMED_LINE` exactly when there are fewer than 17 fields, `INVALID_FIELDS` for a blank region or a date shorter than seven characters, `INVALID_BILLING_AMOUNT` for an amount that does not parse |
| Phase1RegionBaselineComputation.Map | src/main/java/siia/alouane/Phase1RegionBaselineComputation.java:43-86 | `TOTAL_LINES` goes up once. Then either the (key, amount) pair is emitted with no side record, or the raw line goes to `invalid` with its one rejection counter and nothing is emitted |
| Phase1RegionBaselineComputation.NoUnexpectedError | src/main/java/siia/alouane/Phase1RegionBaselineComputation.java:82-86 | the mapper never rejects a line under `UNEXPECTED_ERROR` |
| Phase1RegionBaselineComputation.Accumulate | src/main/java/siia/alouane/Phase1RegionBaselineComputation.java:116-125 | the reducer loop ends with the sum, the sum of squares and the number of the values |
| Phase1RegionBaselineComputation.SumOfPermutation | src/main/java/siia/alouane/Phase1RegionBaselineComputation.java:120-125 | the accumulated sums do not depend on the order of the values |
| Phase1RegionBaselineComputation.ClampedVariance | src/main/java/siia/alouane/Phase1RegionBaselineComputation.java:131-135 | the variance after the clamp is never negative |
| Phase1RegionBaselineComputation.ReduceGroup | src/main/java/siia/alouane/Phase1RegionBaselineComputation.java:127-146 | no values give no row; a key without the bar separator gives the key error; otherwise there is a row whose mean times the count is the sum of the values, whose stdDev is the square root of the mean squared deviation from that mean, and whose region and year-month are the first two pieces of the key split at the bar separator |
| Phase1RegionBaselineComputation.BaselineLine | src/main/java/siia/alouane/Phase1RegionBaselineComputation.java:149-150 | the row is the region, the year-month and the two six-decimal numbers joined by commas: when none of them holds a comma, splitting the row at its commas gives the four back |
| Phase1RegionBaselineComputation.Reduce | src/main/java/siia/alouane/Phase1RegionBaselineComputation.java:113-154 | for no values, nothing changes; for a key error, only `REDUCER_KEY_ERROR` goes up; otherwise exactly the row `region,yearMonth,mean,stdDev` is written |
| Phase1RegionBaselineComputation.ReduceOrderIndependent | src/main/java/siia/alouane/Phase1RegionBaselineComputation.java:116-150 | the reducer's result for a key is the same for any order of its values |
| Phase1RegionBaselineComputation.SquaredDeviationsExpand | src/main/java/siia/alouane/Phase1RegionBaselineComputation.java:132 | the sum of squared deviations from m expands to Q - 2mS + n m^2, where S is the sum and Q the sum of squares |
| Phase1RegionBaselineComputation.VarianceIsMeanSquaredDeviation | src/main/java/siia/alouane/Phase1RegionBaselineComputation.java:131-135 | in exact arithmetic, `sumOfSquares/count - mean^2` is the mean squared deviation, so the clamp never changes it |
| Phase1RegionBaselineComputation.SingleRecordHasNoSpread | src/main/java/siia/alouane/Phase1RegionBaselineComputation.java:131-136 | a key with one record gets a row with that record's amount as mean and `sqrt(0)` as standard deviation |
| Phase1RegionBaselineComputation.MapperKeyHasNoKeyError | src/main/java/siia/alouane/Phase1RegionBaselineComputation.java:139-143 | every key the mapper emits reaches the row branch, so `REDUCER_KEY_ERROR` is unreachable for mapper keys |
| Phase1RegionBaselineComputation.MapperKeyReducesToRow | src/main/java/siia/alouane/Phase1RegionBaselineComputation.java:139-146 | when neither region nor year-month holds the bar separator, the row carries exactly the region and the year-month of the mapper key |
| Phase1RegionBaselineComputation.MapperKeyLosesParts | src/main/java/siia/alouane/Phase1RegionBaselineComputation.java:139-146 | when the region or the year-month holds the bar separator, the row still comes out, but its region or its year-month differs from the mapper key's |
| Phase2AnomalyLabeling.ReadBaselineLine | src/main/java/siia/alouane/Phase2AnomalyLabeling.java:68-78 | a line with fewer than 4 fields is skipped. Otherwise the key is the trimmed first two fields joined by the bar separator, and the stats are the parsed trimmed third and fourth fields. When either number does not parse, the line fails |
| Phase2AnomalyLabeling.LastLineWins | src/main/java/siia/alouane/Phase2AnomalyLabeling.java:77-78 | after a load that gets through, a key holds the stats of the last line that put it, and a key no line put keeps its old entry |
| Phase2AnomalyLabeling.AnomalyMapper.constructor | src/main/java/siia/alouane/Phase2AnomalyLabeling.java:34 | the mapper starts with an empty baseline table |
| Phase2AnomalyLabeling.AnomalyMapper.Setup | src/main/java/siia/alouane/Phase2AnomalyLabeling.java:50-82 | an unset `phase1.output.path` or a missing file fails with the table untouched; otherwise the table is the file's lines loaded in order, or the load fails at the first line with a number that does not parse |
| Phase2AnomalyLabeling.LoadFrom | src/main/java/siia/alouane/Phase2AnomalyLabeling.java:65-80 | loading the lines in order never drops a key already in the table, and a failed load stops at one of the lines, one whose numbers do not parse |
| Phase2AnomalyLabeling.AnomalyMapper.LoadLines | src/main/java/siia/alouane/Phase2AnomalyLabeling.java:65-80 | the `readLine` loop leaves the table that loading the lines in order gives, or stops with the error of the first line with a number that does not parse |
| Phase2AnomalyLabeling.ReadEntry | src/main/java/siia/alouane/Phase2AnomalyLabeling.java:68-78 | one pass of the loop body reads a line as the baseline-line reader does: skipped when short, the key and both numbers when they parse, the number error otherwise |
| Phase2AnomalyLabeling.LoadStep | src/main/java/siia/alouane/Phase2AnomalyLabeling.java:67-79 | loading from line i is line i's entry applied to the table, then loading the lines after it; a bad number stops there with the table as it stood |
| Phase2AnomalyLabeling.ZScore | src/main/java/siia/alouane/Phase2AnomalyLabeling.java:122 | the amount lies z standard deviations from the mean: amount = mean + z * stdDev, with z positive exactly above the mean and negative exactly below it when stdDev is positive |
| Phase2AnomalyLabeling.IsOutlier | src/main/java/siia/alouane/Phase2AnomalyLabeling.java:123 | a score is an anomaly exactly when it is at least 2.0 or at most -2.0 |
| Phase2AnomalyLabeling.Label | src/main/java/siia/alouane/Phase2AnomalyLabeling.java:96-128 | a line is labelled exactly when its record is valid and its key is in the table. A zero stdDev gives score 0.0 and flag true; otherwise the score is (amount - mean) / stdDev and the flag is true exactly when abs(score) >= 2.0. A rejection carries one of the four counters, which is `NO_BASELINE_FOUND` for a valid record without a baseline and otherwise the Stage 1 counter of the record's cause |
| Phase2AnomalyLabeling.Bumped | src/main/java/siia/alouane/Phase2AnomalyLabeling.java:101-125 | after `TOTAL_LINES`, one counter at most goes up: the rejection's own; or `ZERO_STD_DEV` exactly for a zero deviation; or `ANOMALIES` exactly for a flagged row against a non-zero deviation; a labelled row that is neither bumps nothing more |
| Phase2AnomalyLabeling.LabeledLine | src/main/java/siia/alouane/Phase2AnomalyLabeling.java:135-146 | `writeOutput`'s row is the region, the year-month, the six-decimal amount and z-score and the `%b` flag joined by commas: when the first four hold no comma, splitting the row at its commas gives the five back |
| Phase2AnomalyLabeling.AnomalyMapper.Map | src/main/java/siia/alouane/Phase2AnomalyLabeling.java:85-145 | the counters go up as the labelling says. A labelled line writes exactly the row `region,yearMonth,amount,score,flag`; a rejected line writes nothing. The baseline table is only read |
| Phase2AnomalyLabeling.LookupUsesStage1Key | src/main/java/siia/alouane/Phase2AnomalyLabeling.java:97-110 | a line is labelled exactly when Stage 1 emits it and its Stage 1 key is in the table |
| Phase2AnomalyLabeling.BaselineRowReloads | src/main/java/siia/alouane/Phase2AnomalyLabeling.java:68-78 | a Stage 1 row with plain region, year-month and numbers reloads under the region and year-month joined by the bar separator, with the numbers read back from their text |
| Phase2AnomalyLabeling.Stage1RowReloadsUnderMapperKey | src/main/java/siia/alouane/Phase1RegionBaselineComputation.java:149-150 | the row Stage 1 writes for a mapper key always comes out, and reading its line back gives that same key with the mean and stdDev read back from their six-decimal text, or the number error when that text does not parse |
| Phase3AnomalyAggregator.RouteOf | src/main/java/siia/alouane/Phase3AnomalyAggregator.java:57-72 | a line is malformed exactly when it has fewer than 5 fields. It is an anomaly of its trimmed first field exactly when it has at least 5 fields and its trimmed fifth field is "true" ignoring case |
| Phase3AnomalyAggregator.Emitted | src/main/java/siia/alouane/Phase3AnomalyAggregator.java:66-72 | a line emits at most one pair, `(region, 1)`, and emits it exactly when it is an anomaly |
| Phase3AnomalyAggregator.Map | src/main/java/siia/alouane/Phase3AnomalyAggregator.java:50-78 | `TOTAL_LINES` goes up once. A malformed line also raises `MALFORMED_LINE` and goes verbatim to `invalidPhase3`. The emitted pairs are exactly those of the line, and `UNEXPECTED_ERROR` never moves |
| Phase3AnomalyAggregator.SumValues | src/main/java/siia/alouane/Phase3AnomalyAggregator.java:109-112 | the reducer loop ends with the sum of the values |
| Phase3AnomalyAggregator.Reduce | src/main/java/siia/alouane/Phase3AnomalyAggregator.java:106-115 | exactly one row is written, the region with the sum of its values |
| Phase3AnomalyAggregator.ValuesOfRegion | src/main/java/siia/alouane/Phase3AnomalyAggregator.java:69-72 | a region receives one value per anomalous line of that region, and they sum to that number |
| Phase3AnomalyAggregator.MapOutputTotal | src/main/java/siia/alouane/Phase3AnomalyAggregator.java:57-72 | the mapper output holds one 1 per anomalous line |
| Phase3AnomalyAggregator.RegionRowCountsAnomalies | src/main/java/siia/alouane/Phase3AnomalyAggregator.java:106-114 | each region's row is the number of anomalous lines of that region, which is positive |
| Phase3AnomalyAggregator.RegionHasRowIffAnomalous | src/main/java/siia/alouane/Phase3AnomalyAggregator.java:106-114 | a region gets a row exactly when it has an anomalous line |
| Phase3AnomalyAggregator.JobTotalIsAnomalyCount | src/main/java/siia/alouane/Phase3AnomalyAggregator.java:109-114 | the rows add up to the number of lines with at least 5 fields and a true flag |
| Phase3AnomalyAggregator.Stage2RowRoutes | src/main/java/siia/alouane/Phase2AnomalyLabeling.java:143-144 | a Stage 2 row whose region has no comma, quote or surrounding white space comes back through this mapper with the region and the flag it was written with |
| DatasetMapping.QuotaIsFloor | dataset_mapping.py:29-33 | the quota is the floor of population * total / totalPopulation, and the remainder is what is left of it, in [0, totalPopulation) |
| DatasetMapping.Shares | dataset_mapping.py:28-33 | `fractional_allocation` holds, in dict order, each region with its fractional part and its place |
| DatasetMapping.SortShares | dataset_mapping.py:41 | the sort is a permutation of the shares |
| DatasetMapping.SortOrdered | dataset_mapping.py:41 | the sort is descending by fractional part, and stable: ties keep dict order |
| DatasetMapping.FloorAllocation | dataset_mapping.py:28-33 | the first loop gives each region exactly its floor, has exactly the regions' keys, and lists the fractional parts in dict order |
| DatasetMapping.HandOutLeftover | dataset_mapping.py:39-46 | the second loop gives one more unit to each of the first min(remaining, number of regions) ranked regions, and raises the sum by that number |
| DatasetMapping.LeftoverBounds | dataset_mapping.py:36-37 | in exact arithmetic, `remaining` lies in [0, number of regions) |
| DatasetMapping.Extras | dataset_mapping.py:41-46 | the units go to the first `remaining` places of the ranking |
| DatasetMapping.AtMostOneExtra | dataset_mapping.py:41-46 | no region receives more than one leftover unit |
| DatasetMapping.ExtrasGoToLargestRemainders | dataset_mapping.py:41-46 | a region that receives a unit has a larger fractional part than one that does not, or an equal one and an earlier place in the dict |
| DatasetMapping.SumOfQuotas | dataset_mapping.py:36 | a dict holding each region's floor sums to the total of the floors |
| DatasetMapping.AllocateHospitalsProportional | dataset_mapping.py:8-48 | the keys are exactly the regions. Each region gets its floor plus one unit per place among the extras, so its floor or its floor plus one. For non-empty regions the total is `total_hospitals` |
| DatasetMapping.ShuffleInPlace | dataset_mapping.py:65 | the list is rearranged in place into the given permutation of itself |
| DatasetMapping.StartStep | dataset_mapping.py:72 | the next region's slice starts where the previous one ends |
| DatasetMapping.SliceRegion | dataset_mapping.py:68-72 | position j of region i's slice [start_i, start_i + count_i) lies inside the total and belongs to region i, so the slices are consecutive and disjoint |
| DatasetMapping.ItemsTotal | dataset_mapping.py:68 | the allocation's items count as many hospitals as the allocation sums to |
| DatasetMapping.FirstHospitalsCount | dataset_mapping.py:69-71 | the first n of distinct hospitals are n hospitals |
| DatasetMapping.AssignHospitalsToRegions | dataset_mapping.py:50-73 | the list ends up as the given permutation. Exactly the first min(sum of counts, number of hospitals) hospitals are mapped. For distinct hospitals, each is mapped to the region whose slice holds it, and the mapping has that many entries |
| DatasetMapping.AllocationCutsTotal | dataset_mapping.py:68-72 | an allocation that sums to `total` cuts exactly `total` positions |

## Left out

- BillingRecord.CheckRecord: the date's length and its seven-character prefix count Unicode characters, whereas Java's `length()` and `substring(0, 7)` count UTF-16 code units. A date holding a character outside the Basic Multilingual Plane is judged differently. For example, Java accepts "2024-" followed by one emoji (seven units) and the model rejects it as too short. A prefix that would split a surrogate pair cannot be represented as a Dafny string at all. Stage 2's Label uses the same check and inherits the difference.
- DatasetMapping.AllocateHospitalsProportional: populations and totals are `nat`; a negative population, which the script would accept, is not modelled.
- Floating point. Amounts, means and z-scores are `real`, so IEEE rounding, NaN and infinities are not modelled.
- The `Numerics` bundle is supplied from outside. `Double.parseDouble`, `Math.sqrt` and `String.format("%.6f")` are parameters, so their grammar, rounding and locale are not modelled. A round trip of a number through its text is stated only up to `parseDouble(formatFixed6(x))`.
- Phase1RegionBaselineComputation.VarianceIsMeanSquaredDeviation: holds in exact arithmetic only. In doubles the clamp exists precisely because the unclamped value can come out slightly negative.
- DatasetMapping.AllocateHospitalsProportional: Python's float quotient `population / total_population * total_hospitals` is taken exactly, as the integer quotient and remainder of p*T by P. Float rounding could make a floor or a tie come out differently.
- DatasetMapping.AllocateHospitalsProportional: a total population of 0 with non-empty regions raises `ZeroDivisionError` in the script; here it is a precondition. The regions are a sequence of distinct names in dict insertion order.
- Hadoop.Shuffle: groups come in order of the first appearance of their key. Hadoop sorts the keys, an order that no property here depends on.
- Hadoop.Context.WriteSide: the numeric value written beside a side-output line (always 0) is not kept.
- Phase3AnomalyAggregator.SumValues: the reducer's `int` sum is unbounded, so Java's 32-bit wrap-around is not modelled.
- Counters are keyed by name only. The group (`PHASE1`, `PHASE2`, `PHASE3`) is fixed per stage.
- parseCSV is modelled once in `CsvScanner`. The three stages carry identical copies of it.
- String.equalsIgnoreCase is modelled with ASCII case folding only.
- Reading the baseline file through `FileSystem` and `BufferedReader`. The configuration is a `map`, the file system a `map` from paths to sequences of lines, and an unreadable file is not distinguished from a missing one.
- `random.seed` and `random.shuffle`: the permutation the shuffle lands on is the parameter `shuffled`.
- The Stage 2 setup is split into `Setup` and its loop, `LoadLines`. The allocation is split into its two loops, `FloorAllocation` and `HandOutLeftover`.
- Logging, the `setup`/`cleanup` of `MultipleOutputs`, every `main` method and the job wiring (`Job`, `Configuration`, input and output formats, exit codes) are framework plumbing.
- `standardize_hospital_names` and the script's `main` (pandas, argparse, CSV input and output, printing) are not part of this model.

/**
 * Stage 2, anomaly labelling (a map-only job). The mapper loads the
 * Stage 1 rows into a table region|yearMonth -> (mean, stdDev) in setup,
 * then labels each billing record with its z-score against the baseline
 * of its region and month, and writes region,yearMonth,amount,zScore,isAnomaly.
 */
module Phase2AnomalyLabeling {
  import opened Wrappers
  import opened JavaLang
  import opened CsvScanner
  import opened Hadoop
  import opened BillingRecord
  import Phase1 = Phase1RegionBaselineComputation

  // Counters of the PHASE2 group.
  const TOTAL_LINES := "TOTAL_LINES"
  const MALFORMED_LINE := "MALFORMED_LINE"
  const INVALID_FIELDS := "INVALID_FIELDS"
  const INVALID_BILLING_AMOUNT := "INVALID_BILLING_AMOUNT"
  const NO_BASELINE_FOUND := "NO_BASELINE_FOUND"
  const ZERO_STD_DEV := "ZERO_STD_DEV"
  const ANOMALIES := "ANOMALIES"

  /** The configuration entry naming the Stage 1 output. */
  const BASELINE_PATH_KEY := "phase1.output.path"
  /** A baseline row has at least region, yearMonth, mean and stdDev. */
  const MIN_BASELINE_FIELDS := 4
  const ZSCORE_THRESHOLD := 2.0

  datatype Stats = Stats(mean: real, stdDev: real)

  type Table = map<string, Stats>

  // ------------------------------------------------------------ setup

  /** What setup makes of one baseline line. */
  datatype BaselineEntry = Skip | Put(key: string, stats: Stats) | BadNumber

  /**
   * One line of the baseline file: lines with fewer than four fields are
   * skipped; otherwise the trimmed region and year-month make the key and
   * the trimmed third and fourth fields must parse as numbers.
   */
  function ReadBaselineLine(line: string, num: Numerics): (e: BaselineEntry)
    ensures e.Skip? <==> |Fields(line)| < MIN_BASELINE_FIELDS
    ensures e.Put? ==>
      var f := Fields(line);
      && e.key == GroupKey(Trim(f[0]), Trim(f[1]))
      && num.parseDouble(Trim(f[2])) == Some(e.stats.mean)
      && num.parseDouble(Trim(f[3])) == Some(e.stats.stdDev)
    ensures e.BadNumber? <==>
      var f := Fields(line);
      |f| >= MIN_BASELINE_FIELDS && (num.parseDouble(Trim(f[2])).None? || num.parseDouble(Trim(f[3])).None?)
  {
    var f := Fields(line);
    if |f| < MIN_BASELINE_FIELDS then Skip
    else
      match (num.parseDouble(Trim(f[2])), num.parseDouble(Trim(f[3])))
      case (Some(mean), Some(stdDev)) => Put(GroupKey(Trim(f[0]), Trim(f[1])), Stats(mean, stdDev))
      case _ => BadNumber
  }

  /** How loading ends: the filled table, or the first line whose numbers do not parse, with the table as it stood. */
  datatype Load = Loaded(table: Table) | Failed(table: Table, line: string)

  /**
   * The baseline lines from the first on, put one after the other into the
   * table. Loading never drops a key, and a load that fails stops at one
   * of the lines, one whose numbers do not parse.
   */
  function LoadFrom(table: Table, lines: seq<string>, num: Numerics): (r: Load)
    ensures table.Keys <= r.table.Keys
    ensures r.Failed? ==> r.line in lines && ReadBaselineLine(r.line, num).BadNumber?
    decreases |lines|
  {
    if lines == [] then Loaded(table)
    else
      match ReadBaselineLine(lines[0], num)
      case Skip => LoadFrom(table, lines[1..], num)
      case Put(key, stats) => LoadFrom(table[key := stats], lines[1..], num)
      case BadNumber => Failed(table, lines[0])
  }

  /** The stats of the last line that puts key, if any. */
  function LastPut(lines: seq<string>, key: string, num: Numerics): Option<Stats>
    decreases |lines|
  {
    if lines == [] then None
    else
      var later := LastPut(lines[1..], key, num);
      if later.Some? then later
      else
        match ReadBaselineLine(lines[0], num)
        case Put(k, stats) => if k == key then Some(stats) else None
        case _ => None
  }

  /**
   * The later line with a key wins: after a load that gets through, a key
   * maps to the stats of the last line that put it, and a key that no line
   * put keeps what the table held before.
   */
  lemma {:induction false} LastLineWins(table: Table, lines: seq<string>, num: Numerics, key: string)
    requires LoadFrom(table, lines, num).Loaded?
    ensures var t := LoadFrom(table, lines, num).table;
      && (LastPut(lines, key, num).Some? ==> key in t && t[key] == LastPut(lines, key, num).value)
      && (LastPut(lines, key, num).None? ==> (key in t <==> key in table) && (key in table ==> t[key] == table[key]))
    decreases |lines|
  {
    if lines != [] {
      match ReadBaselineLine(lines[0], num)
      case Skip =>
        LastLineWins(table, lines[1..], num, key);
      case Put(k, stats) =>
        LastLineWins(table[k := stats], lines[1..], num, key);
    }
  }

  /** Errors setup raises as IOException or NumberFormatException. */
  datatype SetupError = MissingPath | FileNotFound(path: string) | NumberFormat(line: string)

  // ------------------------------------------------------------ map

  /** What the mapper makes of one billing line against the table. */
  datatype Labeling =
    | Rejected(counter: string)
    | Labeled(region: string, yearMonth: string, amount: real, zScore: real, isAnomaly: bool, zeroStdDev: bool)

  /** Math.abs(z) >= 2.0: at least two standard deviations away, on either side of the mean. */
  predicate IsOutlier(zScore: real): (outlier: bool)
    ensures outlier <==> zScore <= -ZSCORE_THRESHOLD || ZSCORE_THRESHOLD <= zScore
  {
    Abs(zScore) >= ZSCORE_THRESHOLD
  }

  /**
   * The standard score of an amount against its group's statistics: the
   * amount lies z standard deviations from the mean, above it for a
   * positive z and below it for a negative one.
   */
  function ZScore(amount: real, stats: Stats): (z: real)
    requires stats.stdDev != 0.0
    ensures amount == stats.mean + z * stats.stdDev
    ensures stats.stdDev > 0.0 ==> (z > 0.0 <==> amount > stats.mean) && (z < 0.0 <==> amount < stats.mean)
  {
    (amount - stats.mean) / stats.stdDev
  }

  /**
   * AnomalyMapper.map's decision: the record check (as in Stage 1), then
   * the lookup of region|yyyy-MM. A zero standard deviation labels the
   * record an anomaly with z-score 0; otherwise the z-score is
   * (amount - mean) / stdDev and the record is an anomaly when its
   * absolute value reaches the threshold.
   */
  function Label(line: string, table: Table, num: Numerics): (l: Labeling)
    ensures var c := CheckRecord(Fields(line), num);
      l.Labeled? <==> c.Valid? && KeyOf(c) in table
    ensures var c := CheckRecord(Fields(line), num);
      l.Labeled? ==>
        && l.region == c.region && l.yearMonth == c.yearMonth && l.amount == c.amount
        && var stats := table[KeyOf(c)];
        && (l.zeroStdDev <==> stats.stdDev == 0.0)
        && (l.zeroStdDev ==> l.zScore == 0.0 && l.isAnomaly)
        && (!l.zeroStdDev ==> l.zScore == ZScore(l.amount, stats) && (l.isAnomaly <==> IsOutlier(l.zScore)))
    ensures l.Rejected? ==> l.counter in {MALFORMED_LINE, INVALID_FIELDS, INVALID_BILLING_AMOUNT, NO_BASELINE_FOUND}
    ensures l.Rejected? ==> (l.counter == NO_BASELINE_FOUND <==> CheckRecord(Fields(line), num).Valid?)
    ensures l.Rejected? ==>
      var c := CheckRecord(Fields(line), num);
      l.counter == if c.Valid? then NO_BASELINE_FOUND else Phase1.RejectionCounter(c)
  {
    var c := CheckRecord(Fields(line), num);
    match c
    case Malformed => Rejected(MALFORMED_LINE)
    case InvalidFields => Rejected(INVALID_FIELDS)
    case InvalidAmount => Rejected(INVALID_BILLING_AMOUNT)
    case Valid(region, yearMonth, amount) =>
      var key := GroupKey(region, yearMonth);
      if key !in table then Rejected(NO_BASELINE_FOUND)
      else
        var stats := table[key];
        if stats.stdDev == 0.0 then Labeled(region, yearMonth, amount, 0.0, true, true)
        else
          var zScore := ZScore(amount, stats);
          Labeled(region, yearMonth, amount, zScore, IsOutlier(zScore), false)
  }

  /**
   * The counters map bumps after TOTAL_LINES: the rejection's own counter;
   * ZERO_STD_DEV for a zero deviation (and then not ANOMALIES); ANOMALIES
   * exactly for a flagged row against a non-zero deviation.
   */
  function Bumped(l: Labeling): (names: seq<string>)
    ensures l.Rejected? ==> names == [l.counter]
    ensures l.Labeled? ==> (ZERO_STD_DEV in names <==> l.zeroStdDev)
    ensures l.Labeled? ==> (ANOMALIES in names <==> l.isAnomaly && !l.zeroStdDev)
    ensures l.Labeled? && !l.zeroStdDev && !l.isAnomaly ==> names == []
    ensures |names| <= 1
  {
    match l
    case Rejected(counter) => [counter]
    case Labeled(_, _, _, _, isAnomaly, zeroStdDev) =>
      if zeroStdDev then [ZERO_STD_DEV] else if isAnomaly then [ANOMALIES] else []
  }

  /** The counters incremented once each, in order. */
  function IncrAll(counters: Counters, names: seq<string>): Counters
    decreases |names|
  {
    if names == [] then counters else IncrAll(Incr(counters, names[0]), names[1..])
  }

  /**
   * writeOutput's row, String.format("%s,%s,%.6f,%.6f,%b", ...): when no
   * part holds a comma, splitting the row at its commas gives the five
   * parts back.
   */
  function LabeledLine(l: Labeling, num: Numerics): (line: string)
    requires l.Labeled?
    ensures
      var parts := [l.region, l.yearMonth, num.formatFixed6(l.amount), num.formatFixed6(l.zScore), BooleanText(l.isAnomaly)];
      COMMA !in l.region && COMMA !in l.yearMonth && COMMA !in parts[2] && COMMA !in parts[3] ==>
        Split(line, COMMA) == parts
  {
    var parts := [l.region, l.yearMonth, num.formatFixed6(l.amount), num.formatFixed6(l.zScore), BooleanText(l.isAnomaly)];
    var line := Join(parts, COMMA);
    assert COMMA !in parts[0] && COMMA !in parts[1] && COMMA !in parts[2] && COMMA !in parts[3] ==>
      Split(line, COMMA) == parts
    by {
      if COMMA !in parts[0] && COMMA !in parts[1] && COMMA !in parts[2] && COMMA !in parts[3] {
        assert COMMA !in parts[4];
        SplitJoin(parts, COMMA);
      }
    }
    line
  }

  /**
   * The body of setup's loop for one line: parse it, skip it if short, then
   * read its key and numbers. It computes ReadBaselineLine step by step, as
   * the loop does; keeping it apart keeps the loop's proof small.
   */
  method ReadEntry(line: string, num: Numerics) returns (entry: BaselineEntry)
    ensures entry == ReadBaselineLine(line, num)
  {
    var fields := ParseCsv(line);
    if |fields| < MIN_BASELINE_FIELDS {
      return Skip;
    }
    var region := Trim(fields[0]);
    var yearMonth := Trim(fields[1]);
    var mean := num.parseDouble(Trim(fields[2]));
    if mean.None? {
      return BadNumber;
    }
    var stdDev := num.parseDouble(Trim(fields[3]));
    if stdDev.None? {
      return BadNumber;
    }
    return Put(GroupKey(region, yearMonth), Stats(mean.value, stdDev.value));
  }

  /** Loading the lines from i on: line i's entry, then the lines after it. */
  lemma LoadStep(table: Table, lines: seq<string>, i: nat, num: Numerics)
    requires i < |lines|
    ensures LoadFrom(table, lines[i..], num) ==
      match ReadBaselineLine(lines[i], num)
      case Skip => LoadFrom(table, lines[i + 1..], num)
      case Put(key, stats) => LoadFrom(table[key := stats], lines[i + 1..], num)
      case BadNumber => Failed(table, lines[i])
  {
    assert lines[i..][0] == lines[i];
    assert lines[i..][1..] == lines[i + 1..];
  }

  /** The mapper, holding the baseline table that setup fills. */
  class AnomalyMapper {
    var baselineMap: Table

    constructor ()
      ensures baselineMap == map[]
    {
      baselineMap := map[];
    }

    /**
     * setup: the configured path must be set and name an existing file;
     * its lines then go into the table.
     */
    method Setup(conf: map<string, string>, files: map<string, seq<string>>, num: Numerics) returns (error: Option<SetupError>)
      modifies this
      ensures BASELINE_PATH_KEY !in conf ==> error == Some(MissingPath) && baselineMap == old(baselineMap)
      ensures BASELINE_PATH_KEY in conf && conf[BASELINE_PATH_KEY] !in files ==>
        error == Some(FileNotFound(conf[BASELINE_PATH_KEY])) && baselineMap == old(baselineMap)
      ensures BASELINE_PATH_KEY in conf && conf[BASELINE_PATH_KEY] in files ==>
        match LoadFrom(old(baselineMap), files[conf[BASELINE_PATH_KEY]], num)
        case Loaded(t) => error == None && baselineMap == t
        case Failed(t, line) => error == Some(NumberFormat(line)) && baselineMap == t
    {
      if BASELINE_PATH_KEY !in conf {
        return Some(MissingPath);
      }
      var path := conf[BASELINE_PATH_KEY];
      if path !in files {
        return Some(FileNotFound(path));
      }
      error := LoadLines(files[path], num);
    }

    /**
     * The reading loop of setup: every line of the file goes into the
     * table in order; a number that does not parse stops the load with
     * the table as it stood.
     */
    method LoadLines(lines: seq<string>, num: Numerics) returns (error: Option<SetupError>)
      modifies this
      ensures match LoadFrom(old(baselineMap), lines, num)
        case Loaded(t) => error == None && baselineMap == t
        case Failed(t, line) => error == Some(NumberFormat(line)) && baselineMap == t
    {
      var i := 0;
      while i < |lines|
        invariant i <= |lines|
        invariant LoadFrom(baselineMap, lines[i..], num) == LoadFrom(old(baselineMap), lines, num)
      {
        LoadStep(baselineMap, lines, i, num);
        var entry := ReadEntry(lines[i], num);
        if entry.BadNumber? {
          return Some(NumberFormat(lines[i]));
        }
        if entry.Put? {
          baselineMap := baselineMap[entry.key := entry.stats];
        }
        i := i + 1;
      }
      return None;
    }

    /**
     * map: TOTAL_LINES once and then the counters of the labelling; a
     * labelled line writes its row, a rejected one nothing. The table is
     * only read.
     */
    method Map(ctx: Context<(), string>, line: string, num: Numerics)
      modifies ctx
      ensures ctx.counters == IncrAll(Incr(old(ctx.counters), TOTAL_LINES), Bumped(Label(line, baselineMap, num)))
      ensures Label(line, baselineMap, num).Rejected? ==> ctx.output == old(ctx.output)
      ensures Label(line, baselineMap, num).Labeled? ==>
        ctx.output == old(ctx.output) + [((), LabeledLine(Label(line, baselineMap, num), num))]
      ensures ctx.side == old(ctx.side)
    {
      ghost var labeling := Label(line, baselineMap, num);
      ghost var before := Incr(ctx.counters, TOTAL_LINES);
      ctx.Increment(TOTAL_LINES);
      var fields := ParseCsv(line);
      if |fields| < MIN_FIELDS {
        assert labeling == Rejected(MALFORMED_LINE);
        ctx.Increment(MALFORMED_LINE);
        return;
      }
      var dateOfAdmission := Trim(fields[DATE_FIELD]);
      var billingAmountText := Trim(fields[AMOUNT_FIELD]);
      var region := Trim(fields[REGION_FIELD]);
      if region == [] || |dateOfAdmission| < YEAR_MONTH_LENGTH {
        assert labeling == Rejected(INVALID_FIELDS);
        ctx.Increment(INVALID_FIELDS);
        return;
      }
      var yearMonth := dateOfAdmission[..YEAR_MONTH_LENGTH];
      var billingAmount := num.parseDouble(billingAmountText);
      if billingAmount.None? {
        assert labeling == Rejected(INVALID_BILLING_AMOUNT);
        ctx.Increment(INVALID_BILLING_AMOUNT);
        return;
      }
      var mapKey := GroupKey(region, yearMonth);
      if mapKey !in baselineMap {
        assert labeling == Rejected(NO_BASELINE_FOUND);
        ctx.Increment(NO_BASELINE_FOUND);
        return;
      }
      var stats := baselineMap[mapKey];
      if stats.stdDev == 0.0 {
        assert labeling == Labeled(region, yearMonth, billingAmount.value, 0.0, true, true);
        ctx.Increment(ZERO_STD_DEV);
        ctx.Write((), LabeledLine(Labeled(region, yearMonth, billingAmount.value, 0.0, true, true), num));
        return;
      }
      var zScore := ZScore(billingAmount.value, stats);
      var isAnomaly := IsOutlier(zScore);
      assert labeling == Labeled(region, yearMonth, billingAmount.value, zScore, isAnomaly, false);
      if isAnomaly {
        ctx.Increment(ANOMALIES);
      }
      ctx.Write((), LabeledLine(Labeled(region, yearMonth, billingAmount.value, zScore, isAnomaly, false), num));
    }
  }

  // ------------------------------------------------------------ across stages

  /**
   * Stage 2 looks a line up under exactly the key Stage 1 grouped it
   * under: a line is labelled iff Stage 1 emits it and its Stage 1 key
   * has a baseline.
   */
  lemma LookupUsesStage1Key(line: string, table: Table, num: Numerics)
    ensures Label(line, table, num).Labeled? <==>
      Phase1.Classify(line, num).Emit? && Phase1.Classify(line, num).key in table
    ensures Label(line, table, num).Labeled? ==>
      (table[Phase1.Classify(line, num).key].stdDev == 0.0 <==> Label(line, table, num).zeroStdDev)
  {
  }

  /** The text of a number as %.6f writes it has no comma and no quote. */
  predicate PlainNumberText(num: Numerics, x: real)
  {
    COMMA !in num.formatFixed6(x) && QUOTE !in num.formatFixed6(x)
  }

  /**
   * A Stage 1 row reloads under the key Stage 1 grouped its records by:
   * for a region and a year-month without commas, quotes or surrounding
   * white space, and numbers printed without commas, the row
   * region,yearMonth,mean,stdDev is put under region|yearMonth with the
   * numbers read back from their text.
   */
  lemma BaselineRowReloads(b: Phase1.Baseline, num: Numerics)
    requires COMMA !in b.region && QUOTE !in b.region && HasNoSurroundingSpace(b.region)
    requires COMMA !in b.yearMonth && QUOTE !in b.yearMonth && HasNoSurroundingSpace(b.yearMonth)
    requires PlainNumberText(num, b.mean) && PlainNumberText(num, b.stdDev)
    ensures var mean := num.parseDouble(Trim(num.formatFixed6(b.mean)));
      var stdDev := num.parseDouble(Trim(num.formatFixed6(b.stdDev)));
      ReadBaselineLine(Phase1.BaselineLine(b, num), num)
        == if mean.Some? && stdDev.Some? then Put(GroupKey(b.region, b.yearMonth), Stats(mean.value, stdDev.value))
           else BadNumber
  {
    var row := [b.region, b.yearMonth, num.formatFixed6(b.mean), num.formatFixed6(b.stdDev)];
    PlainRowReadsBack(row);
  }

  /**
   * End to end over Stage 1 and the load: the row the Stage 1 reducer
   * writes for the group of a mapper key region|yearMonth is put back
   * under that same key (when its numbers read back), provided the region
   * has no '|' and the texts are plain as above.
   */
  lemma Stage1RowReloadsUnderMapperKey(region: string, yearMonth: string, values: seq<real>, num: Numerics)
    requires values != []
    requires KEY_SEPARATOR !in region && KEY_SEPARATOR !in yearMonth
    requires COMMA !in region && QUOTE !in region && HasNoSurroundingSpace(region)
    requires COMMA !in yearMonth && QUOTE !in yearMonth && HasNoSurroundingSpace(yearMonth)
    requires var r := Phase1.ReduceGroup(GroupKey(region, yearMonth), values, num);
      r.Row? ==> PlainNumberText(num, r.baseline.mean) && PlainNumberText(num, r.baseline.stdDev)
    ensures var r := Phase1.ReduceGroup(GroupKey(region, yearMonth), values, num);
      && r.Row?
      && var mean := num.parseDouble(Trim(num.formatFixed6(r.baseline.mean)));
      var stdDev := num.parseDouble(Trim(num.formatFixed6(r.baseline.stdDev)));
      ReadBaselineLine(Phase1.BaselineLine(r.baseline, num), num)
        == if mean.Some? && stdDev.Some? then Put(GroupKey(region, yearMonth), Stats(mean.value, stdDev.value))
           else BadNumber
  {
    Phase1.MapperKeyReducesToRow(region, yearMonth, values, num);
    BaselineRowReloads(Phase1.ReduceGroup(GroupKey(region, yearMonth), values, num).baseline, num);
  }
}

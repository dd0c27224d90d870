/**
 * Stage 3, anomaly aggregation. The mapper reads the Stage 2 rows
 * region,yearMonth,amount,zScore,isAnomaly and emits (region, 1) for each
 * row flagged true; the reducer sums the ones of each region.
 */
module Phase3AnomalyAggregator {
  import opened JavaLang
  import opened CsvScanner
  import opened Hadoop
  import Phase2 = Phase2AnomalyLabeling

  // Counters of the PHASE3 group.
  const TOTAL_LINES := "TOTAL_LINES"
  const MALFORMED_LINE := "MALFORMED_LINE"
  const UNEXPECTED_ERROR := "UNEXPECTED_ERROR"

  /** The side output for lines with too few fields. */
  const INVALID_OUTPUT := "invalidPhase3"
  /** A Stage 2 row has region, yearMonth, amount, zScore and isAnomaly. */
  const MIN_FIELDS := 5
  const REGION_FIELD := 0
  const FLAG_FIELD := 4

  /** Where the mapper sends a line. */
  datatype Route = Malformed | Anomaly(region: string) | Normal

  /**
   * A line with fewer than five fields is malformed; otherwise it is an
   * anomaly of its trimmed first field exactly when its trimmed fifth
   * field is "true" ignoring case.
   */
  function RouteOf(line: string): (r: Route)
    ensures r.Malformed? <==> |Fields(line)| < MIN_FIELDS
    ensures r.Anomaly? <==>
      |Fields(line)| >= MIN_FIELDS && EqualsIgnoreCase(Trim(Fields(line)[FLAG_FIELD]), "true")
    ensures r.Anomaly? ==> r.region == Trim(Fields(line)[REGION_FIELD])
  {
    var fields := Fields(line);
    if |fields| < MIN_FIELDS then Malformed
    else if EqualsIgnoreCase(Trim(fields[FLAG_FIELD]), "true") then Anomaly(Trim(fields[REGION_FIELD]))
    else Normal
  }

  /** The pairs the mapper emits for one line. */
  function Emitted(line: string): (pairs: seq<(string, int)>)
    ensures |pairs| <= 1
    ensures pairs != [] <==> RouteOf(line).Anomaly?
    ensures pairs != [] ==> pairs[0] == (RouteOf(line).region, 1)
  {
    match RouteOf(line)
    case Anomaly(region) => [(region, 1)]
    case _ => []
  }

  /**
   * AnomalyMapper.map: TOTAL_LINES once; a malformed line also bumps
   * MALFORMED_LINE and goes verbatim to "invalidPhase3"; an anomaly emits
   * (region, 1). The catch-all branch, with UNEXPECTED_ERROR, is never
   * taken.
   */
  method Map(ctx: Context<string, int>, line: string)
    modifies ctx
    ensures RouteOf(line).Malformed? ==>
      && ctx.counters == Incr(Incr(old(ctx.counters), TOTAL_LINES), MALFORMED_LINE)
      && ctx.side == old(ctx.side) + [SideRecord(INVALID_OUTPUT, line)]
    ensures !RouteOf(line).Malformed? ==>
      ctx.counters == Incr(old(ctx.counters), TOTAL_LINES) && ctx.side == old(ctx.side)
    ensures ctx.output == old(ctx.output) + Emitted(line)
    ensures Count(ctx.counters, UNEXPECTED_ERROR) == Count(old(ctx.counters), UNEXPECTED_ERROR)
  {
    ctx.Increment(TOTAL_LINES);
    var fields := ParseCsv(line);
    if |fields| < MIN_FIELDS {
      ctx.Increment(MALFORMED_LINE);
      ctx.WriteSide(INVALID_OUTPUT, line);
      return;
    }
    var region := Trim(fields[REGION_FIELD]);
    var isAnomalyText := Trim(fields[FLAG_FIELD]);
    if EqualsIgnoreCase(isAnomalyText, "true") {
      ctx.Write(region, 1);
    }
  }

  /** The reducer's loop: the sum of a region's values. */
  method SumValues(values: seq<int>) returns (sum: int)
    ensures sum == SumInts(values)
  {
    sum := 0;
    var i := 0;
    while i < |values|
      invariant i <= |values|
      invariant sum == SumInts(values[..i])
    {
      assert values[..i + 1][..i] == values[..i];
      sum := sum + values[i];
      i := i + 1;
    }
    assert values[..i] == values;
  }

  /** AnomalyReducer.reduce: one row, the region and the sum of its values. */
  method Reduce(ctx: Context<string, int>, key: string, values: seq<int>)
    modifies ctx
    ensures ctx.output == old(ctx.output) + [(key, SumInts(values))]
    ensures ctx.counters == old(ctx.counters) && ctx.side == old(ctx.side)
  {
    var sum := SumValues(values);
    ctx.Write(key, sum);
  }

  // ------------------------------------------------------------ the whole job

  /** The mapper output of a sequence of lines, in order. */
  function MapOutput(lines: seq<string>): (pairs: seq<(string, int)>)
    ensures |pairs| <= |lines|
  {
    if lines == [] then [] else Emitted(lines[0]) + MapOutput(lines[1..])
  }

  /** The number of lines flagged as an anomaly of the given region. */
  function AnomaliesIn(lines: seq<string>, region: string): nat
  {
    if lines == [] then 0
    else (if RouteOf(lines[0]) == Anomaly(region) then 1 else 0) + AnomaliesIn(lines[1..], region)
  }

  /** The number of lines with at least five fields and a true flag. */
  function Anomalies(lines: seq<string>): nat
  {
    if lines == [] then 0
    else (if RouteOf(lines[0]).Anomaly? then 1 else 0) + Anomalies(lines[1..])
  }

  /** One line's pairs in front of the rest: the region's values gain that line's 1, if it is the region's. */
  lemma PrependEmitted(e: seq<(string, int)>, rest: seq<(string, int)>, region: string)
    requires |e| <= 1 && (e != [] ==> e[0].1 == 1)
    ensures var hit := if e != [] && e[0].0 == region then 1 else 0;
      && |ValuesFor(e + rest, region)| == hit + |ValuesFor(rest, region)|
      && SumInts(ValuesFor(e + rest, region)) == hit + SumInts(ValuesFor(rest, region))
  {
    if e != [] {
      assert (e + rest)[1..] == rest;
      if e[0].0 == region {
        SumIntsCons(1, ValuesFor(rest, region));
      }
    } else {
      assert e + rest == rest;
    }
  }

  /** The mapper emits one 1 under a region per anomalous line of that region. */
  lemma {:induction false} ValuesOfRegion(lines: seq<string>, region: string)
    ensures |ValuesFor(MapOutput(lines), region)| == AnomaliesIn(lines, region)
    ensures SumInts(ValuesFor(MapOutput(lines), region)) == AnomaliesIn(lines, region)
    decreases |lines|
  {
    if lines != [] {
      ValuesOfRegion(lines[1..], region);
      PrependEmitted(Emitted(lines[0]), MapOutput(lines[1..]), region);
    }
  }

  /** The mapper output holds one 1 per anomalous line. */
  lemma {:induction false} MapOutputTotal(lines: seq<string>)
    ensures SumInts(IntValues(MapOutput(lines))) == Anomalies(lines)
    decreases |lines|
  {
    if lines != [] {
      var rest := MapOutput(lines[1..]);
      MapOutputTotal(lines[1..]);
      var e := Emitted(lines[0]);
      if e != [] {
        assert MapOutput(lines) == [e[0]] + rest;
        assert IntValues([e[0]] + rest) == [1] + IntValues(rest);
        SumIntsCons(1, IntValues(rest));
      } else {
        assert MapOutput(lines) == rest;
      }
    }
  }

  /**
   * Per region, the reducer's row is the number of anomalous lines of
   * that region.
   */
  lemma RegionRowCountsAnomalies(lines: seq<string>, n: nat)
    requires n < |Shuffle(MapOutput(lines))|
    ensures var g := Shuffle(MapOutput(lines))[n];
      SumInts(g.1) == AnomaliesIn(lines, g.0) && AnomaliesIn(lines, g.0) > 0
  {
    var g := Shuffle(MapOutput(lines))[n];
    ShuffleGroup(MapOutput(lines), n);
    ValuesOfRegion(lines, g.0);
  }

  /** A region gets a row exactly when it has an anomalous line. */
  lemma RegionHasRowIffAnomalous(lines: seq<string>, region: string)
    ensures (exists g :: g in Shuffle(MapOutput(lines)) && g.0 == region) <==> AnomaliesIn(lines, region) > 0
  {
    ShuffleKeys(MapOutput(lines), region);
    ValuesOfRegion(lines, region);
  }

  /** The rows of the job add up to the number of anomalous lines. */
  lemma JobTotalIsAnomalyCount(lines: seq<string>)
    ensures GroupTotals(Shuffle(MapOutput(lines))) == Anomalies(lines)
  {
    ShuffleTotal(MapOutput(lines));
    MapOutputTotal(lines);
  }

  // ------------------------------------------------------------ across stages

  /** "true" and "false" need no quoting and no trimming. */
  lemma BooleanTextIsPlain(b: bool)
    ensures COMMA !in BooleanText(b) && QUOTE !in BooleanText(b) && HasNoSurroundingSpace(BooleanText(b))
  {
    if b {
      assert BooleanText(b) == ['t', 'r', 'u', 'e'];
    } else {
      assert BooleanText(b) == ['f', 'a', 'l', 's', 'e'];
    }
  }

  /**
   * A Stage 2 row comes back through this mapper with the region and the
   * flag it was written with, provided its region has no surrounding
   * white space, neither region nor year-month holds a comma or quote,
   * and the numbers print without commas or quotes.
   */
  lemma Stage2RowRoutes(l: Phase2.Labeling, num: Numerics)
    requires l.Labeled?
    requires COMMA !in l.region && QUOTE !in l.region && HasNoSurroundingSpace(l.region)
    requires COMMA !in l.yearMonth && QUOTE !in l.yearMonth
    requires Phase2.PlainNumberText(num, l.amount) && Phase2.PlainNumberText(num, l.zScore)
    ensures RouteOf(Phase2.LabeledLine(l, num)) == if l.isAnomaly then Anomaly(l.region) else Normal
  {
    var row := [l.region, l.yearMonth, num.formatFixed6(l.amount), num.formatFixed6(l.zScore), BooleanText(l.isAnomaly)];
    BooleanTextIsPlain(l.isAnomaly);
    PlainRowReadsBack(row);
    BooleanTextReadsBack(l.isAnomaly);
  }
}

/**
 * Stage 1, the region/month baseline. The mapper keeps the billing
 * records that pass the record check and emits (region|yyyy-MM, amount);
 * the others go verbatim to the "invalid" side output. The reducer turns
 * the amounts of one key into the row region,yearMonth,mean,stdDev.
 */
module Phase1RegionBaselineComputation {
  import opened Wrappers
  import opened JavaLang
  import opened CsvScanner
  import opened Hadoop
  import opened BillingRecord

  // Counters of the PHASE1 group.
  const TOTAL_LINES := "TOTAL_LINES"
  const MALFORMED_LINE := "MALFORMED_LINE"
  const INVALID_FIELDS := "INVALID_FIELDS"
  const INVALID_BILLING_AMOUNT := "INVALID_BILLING_AMOUNT"
  const UNEXPECTED_ERROR := "UNEXPECTED_ERROR"
  const REDUCER_KEY_ERROR := "REDUCER_KEY_ERROR"

  /** The side output that receives rejected lines. */
  const INVALID_OUTPUT := "invalid"

  /** What the mapper does with one line. */
  datatype MapOutcome = Emit(key: string, amount: real) | Reject(counter: string)

  /** The counter that a failed record check increments: one counter per cause. */
  function RejectionCounter(c: Check): (counter: string)
    requires !c.Valid?
    ensures counter == MALFORMED_LINE <==> c.Malformed?
    ensures counter == INVALID_FIELDS <==> c.InvalidFields?
    ensures counter == INVALID_BILLING_AMOUNT <==> c.InvalidAmount?
  {
    match c
    case Malformed => MALFORMED_LINE
    case InvalidFields => INVALID_FIELDS
    case InvalidAmount => INVALID_BILLING_AMOUNT
  }

  /**
   * BaselineMapper.map's decision for one line: a line is emitted exactly
   * when its record passes the check, under the key region|yyyy-MM and
   * with the parsed amount; otherwise it is rejected under exactly one of
   * the three rejection counters, never UNEXPECTED_ERROR.
   */
  function Classify(line: string, num: Numerics): (o: MapOutcome)
    ensures o.Emit? <==> CheckRecord(Fields(line), num).Valid?
    ensures o.Emit? ==>
      var c := CheckRecord(Fields(line), num);
      o.key == GroupKey(c.region, c.yearMonth) && o.amount == c.amount
    ensures o.Reject? ==> o.counter in {MALFORMED_LINE, INVALID_FIELDS, INVALID_BILLING_AMOUNT}
    ensures o.Reject? ==> (o.counter == MALFORMED_LINE <==> |Fields(line)| < MIN_FIELDS)
    ensures o.Reject? ==> o.counter == RejectionCounter(CheckRecord(Fields(line), num))
  {
    var c := CheckRecord(Fields(line), num);
    if c.Valid? then Emit(KeyOf(c), c.amount) else Reject(RejectionCounter(c))
  }

  /**
   * BaselineMapper.map: TOTAL_LINES once, then either the emitted pair or
   * the raw line on the "invalid" side output with its one counter.
   */
  method Map(ctx: Context<string, real>, line: string, num: Numerics)
    modifies ctx
    ensures Classify(line, num).Emit? ==>
      && ctx.counters == Incr(old(ctx.counters), TOTAL_LINES)
      && ctx.output == old(ctx.output) + [(Classify(line, num).key, Classify(line, num).amount)]
      && ctx.side == old(ctx.side)
    ensures Classify(line, num).Reject? ==>
      && ctx.counters == Incr(Incr(old(ctx.counters), TOTAL_LINES), Classify(line, num).counter)
      && ctx.output == old(ctx.output)
      && ctx.side == old(ctx.side) + [SideRecord(INVALID_OUTPUT, line)]
  {
    ctx.Increment(TOTAL_LINES);
    var fields := ParseCsv(line);
    if |fields| < MIN_FIELDS {
      ctx.Increment(MALFORMED_LINE);
      ctx.WriteSide(INVALID_OUTPUT, line);
      return;
    }
    var dateOfAdmission := Trim(fields[DATE_FIELD]);
    var billingAmountText := Trim(fields[AMOUNT_FIELD]);
    var region := Trim(fields[REGION_FIELD]);
    if region == [] || |dateOfAdmission| < YEAR_MONTH_LENGTH {
      ctx.Increment(INVALID_FIELDS);
      ctx.WriteSide(INVALID_OUTPUT, line);
      return;
    }
    var yearMonth := dateOfAdmission[..YEAR_MONTH_LENGTH];
    var parsed := num.parseDouble(billingAmountText);
    if parsed.None? {
      ctx.Increment(INVALID_BILLING_AMOUNT);
      ctx.WriteSide(INVALID_OUTPUT, line);
      return;
    }
    ctx.Write(GroupKey(region, yearMonth), parsed.value);
  }

  /** The mapper never reaches its catch-all branch. */
  lemma NoUnexpectedError(line: string, num: Numerics)
    ensures Classify(line, num) != Reject(UNEXPECTED_ERROR)
  {
    var o := Classify(line, num);
    if o.Reject? {
      assert o.counter in {MALFORMED_LINE, INVALID_FIELDS, INVALID_BILLING_AMOUNT};
    }
  }

  // ---------------------------------------------------------------- reducer

  function Id(x: real): real { x }

  function Square(x: real): real { x * x }

  /** The sum of f over xs, taken from the left as the reducer's loop does. */
  function SumOf(f: real -> real, xs: seq<real>): real
  {
    if xs == [] then 0.0 else SumOf(f, xs[..|xs| - 1]) + f(xs[|xs| - 1])
  }

  function Sum(xs: seq<real>): real { SumOf(Id, xs) }

  function SumOfSquares(xs: seq<real>): real { SumOf(Square, xs) }

  /**
   * The reducer's loop over the values of one key: it ends with the sum,
   * the sum of squares and the number of the values.
   */
  method Accumulate(values: seq<real>) returns (sum: real, sumOfSquares: real, count: nat)
    ensures sum == Sum(values) && sumOfSquares == SumOfSquares(values) && count == |values|
  {
    sum, sumOfSquares, count := 0.0, 0.0, 0;
    while count < |values|
      invariant count <= |values|
      invariant sum == Sum(values[..count]) && sumOfSquares == SumOfSquares(values[..count])
    {
      var amount := values[count];
      assert values[..count + 1][..count] == values[..count];
      sum := sum + amount;
      sumOfSquares := sumOfSquares + amount * amount;
      count := count + 1;
    }
    assert values[..count] == values;
  }

  lemma SumOfAppend(f: real -> real, xs: seq<real>, ys: seq<real>)
    ensures SumOf(f, xs + ys) == SumOf(f, xs) + SumOf(f, ys)
    decreases |ys|
  {
    if ys == [] {
      assert xs + ys == xs;
    } else {
      SumOfAppend(f, xs, ys[..|ys| - 1]);
      assert (xs + ys)[..|xs + ys| - 1] == xs + ys[..|ys| - 1];
    }
  }

  /** Taking one value out of the sum. */
  lemma SumOfRemove(f: real -> real, ys: seq<real>, j: nat)
    requires j < |ys|
    ensures SumOf(f, ys) == SumOf(f, ys[..j] + ys[j + 1..]) + f(ys[j])
  {
    var x := ys[j];
    assert ys == ys[..j] + ([x] + ys[j + 1..]);
    SumOfAppend(f, ys[..j], [x] + ys[j + 1..]);
    SumOfAppend(f, [x], ys[j + 1..]);
    SumOfAppend(f, ys[..j], ys[j + 1..]);
    assert SumOf(f, [x]) == f(x) by {
      assert [x][..0] == [];
    }
  }

  /** Taking one occurrence of an element out of a sequence takes it out of its multiset. */
  lemma MultisetRemove(ys: seq<real>, j: nat)
    requires j < |ys|
    ensures multiset(ys) == multiset(ys[..j] + ys[j + 1..]) + multiset{ys[j]}
  {
    assert ys == ys[..j] + [ys[j]] + ys[j + 1..];
  }

  /** Two permutations of each other, less the last value of one and a matching value of the other. */
  lemma PermutationLessOne(xs: seq<real>, ys: seq<real>, j: nat)
    requires multiset(xs) == multiset(ys) && xs != [] && j < |ys| && ys[j] == xs[|xs| - 1]
    ensures multiset(xs[..|xs| - 1]) == multiset(ys[..j] + ys[j + 1..])
  {
    var i := |xs| - 1;
    var x := xs[i];
    var others := ys[..j] + ys[j + 1..];
    MultisetRemove(xs, i);
    MultisetRemove(ys, j);
    assert xs[..i] + xs[i + 1..] == xs[..i];
    assert multiset(xs[..i]) == multiset(xs[..i]) + multiset{x} - multiset{x};
    assert multiset(others) == multiset(others) + multiset{x} - multiset{x};
  }

  /** The sum does not depend on the order of the values. */
  lemma {:induction false} SumOfPermutation(f: real -> real, xs: seq<real>, ys: seq<real>)
    requires multiset(xs) == multiset(ys)
    ensures SumOf(f, xs) == SumOf(f, ys)
    decreases |xs|
  {
    if xs != [] {
      var x := xs[|xs| - 1];
      assert x in multiset(ys);
      var j :| 0 <= j < |ys| && ys[j] == x;
      PermutationLessOne(xs, ys, j);
      SumOfPermutation(f, xs[..|xs| - 1], ys[..j] + ys[j + 1..]);
      SumOfRemove(f, ys, j);
    } else {
      assert ys == [];
    }
  }

  /** The per-key figures, mean and clamped variance, as the reducer computes them. */
  function Mean(sum: real, count: nat): real
    requires count > 0
  {
    sum / count as real
  }

  function ClampedVariance(sum: real, sumOfSquares: real, count: nat): (v: real)
    requires count > 0
    ensures v >= 0.0
  {
    var mean := Mean(sum, count);
    var variance := sumOfSquares / count as real - mean * mean;
    if variance < 0.0 then 0.0 else variance
  }

  /** One output row of Stage 1. */
  datatype Baseline = Baseline(region: string, yearMonth: string, mean: real, stdDev: real)

  datatype ReduceOutcome = NoValues | KeyError | Row(baseline: Baseline)

  /**
   * BaselineReducer.reduce's result for one key: nothing without values,
   * REDUCER_KEY_ERROR for a key without '|', otherwise the first two
   * pieces of the key with the mean and the standard deviation.
   */
  function ReduceGroup(key: string, values: seq<real>, num: Numerics): (r: ReduceOutcome)
    ensures r.NoValues? <==> values == []
    ensures r.KeyError? <==> values != [] && KEY_SEPARATOR !in key
    ensures r.Row? ==> r.baseline.mean * |values| as real == Sum(values)
    ensures r.Row? ==> r.baseline.stdDev == num.sqrt(SquaredDeviations(values, r.baseline.mean) / |values| as real)
    ensures r.Row? ==>
      r.baseline.region == Split(key, KEY_SEPARATOR)[0] && r.baseline.yearMonth == Split(key, KEY_SEPARATOR)[1]
  {
    if values == [] then NoValues
    else
      var n := |values|;
      var mean := Mean(Sum(values), n);
      var stdDev := num.sqrt(ClampedVariance(Sum(values), SumOfSquares(values), n));
      var parts := Split(key, KEY_SEPARATOR);
      SplitHasSeparator(key, KEY_SEPARATOR);
      VarianceIsMeanSquaredDeviation(values);
      if |parts| < 2 then KeyError
      else Row(Baseline(parts[0], parts[1], mean, stdDev))
  }

  /**
   * The row text, String.format("%s,%s,%.6f,%.6f", ...): when no part holds
   * a comma, splitting the row at its commas gives the four parts back.
   */
  function BaselineLine(b: Baseline, num: Numerics): (line: string)
    ensures
      var parts := [b.region, b.yearMonth, num.formatFixed6(b.mean), num.formatFixed6(b.stdDev)];
      COMMA !in b.region && COMMA !in b.yearMonth && COMMA !in parts[2] && COMMA !in parts[3] ==>
        Split(line, COMMA) == parts
  {
    var parts := [b.region, b.yearMonth, num.formatFixed6(b.mean), num.formatFixed6(b.stdDev)];
    var line := Join(parts, COMMA);
    assert COMMA !in parts[0] && COMMA !in parts[1] && COMMA !in parts[2] && COMMA !in parts[3] ==>
      Split(line, COMMA) == parts
    by {
      if COMMA !in parts[0] && COMMA !in parts[1] && COMMA !in parts[2] && COMMA !in parts[3] {
        SplitJoin(parts, COMMA);
      }
    }
    line
  }

  /** BaselineReducer.reduce: the loop, then at most one row or one counter. */
  method Reduce(ctx: Context<(), string>, key: string, values: seq<real>, num: Numerics)
    modifies ctx
    ensures ReduceGroup(key, values, num).NoValues? ==>
      ctx.counters == old(ctx.counters) && ctx.output == old(ctx.output) && ctx.side == old(ctx.side)
    ensures ReduceGroup(key, values, num).KeyError? ==>
      ctx.counters == Incr(old(ctx.counters), REDUCER_KEY_ERROR) && ctx.output == old(ctx.output) && ctx.side == old(ctx.side)
    ensures ReduceGroup(key, values, num).Row? ==>
      && ctx.counters == old(ctx.counters) && ctx.side == old(ctx.side)
      && ctx.output == old(ctx.output) + [((), BaselineLine(ReduceGroup(key, values, num).baseline, num))]
  {
    var sum, sumOfSquares, count := Accumulate(values);
    if count == 0 {
      return;
    }
    var mean := Mean(sum, count);
    var stdDev := num.sqrt(ClampedVariance(sum, sumOfSquares, count));
    var parts := Split(key, KEY_SEPARATOR);
    SplitHasSeparator(key, KEY_SEPARATOR);
    if |parts| < 2 {
      ctx.Increment(REDUCER_KEY_ERROR);
      return;
    }
    ctx.Write((), BaselineLine(Baseline(parts[0], parts[1], mean, stdDev), num));
  }

  // ------------------------------------------------------- reducer properties

  /** The reducer's result does not depend on the order in which the values arrive. */
  lemma ReduceOrderIndependent(key: string, xs: seq<real>, ys: seq<real>, num: Numerics)
    requires multiset(xs) == multiset(ys)
    ensures ReduceGroup(key, xs, num) == ReduceGroup(key, ys, num)
  {
    SumOfPermutation(Id, xs, ys);
    SumOfPermutation(Square, xs, ys);
    assert |xs| == |multiset(xs)| == |multiset(ys)| == |ys|;
  }

  /** Squared deviations from m, summed. */
  function SquaredDeviations(xs: seq<real>, m: real): (r: real)
    ensures r >= 0.0
  {
    if xs == [] then 0.0
    else
      var d := xs[|xs| - 1] - m;
      SquareNonNegative(d);
      SquaredDeviations(xs[..|xs| - 1], m) + d * d
  }

  lemma SquareNonNegative(d: real)
    ensures d * d >= 0.0
  {
    if d < 0.0 {
      assert d * d == (-d) * (-d);
    }
  }

  /** The squared deviations from m written out: Q - 2 m S + n m^2 for sum S and sum of squares Q. */
  function Expanded(squares: real, sum: real, count: nat, m: real): real
  {
    squares - 2.0 * m * sum + count as real * m * m
  }

  lemma {:induction false} SquaredDeviationsExpand(xs: seq<real>, m: real)
    ensures SquaredDeviations(xs, m) == Expanded(SumOfSquares(xs), Sum(xs), |xs|, m)
    decreases |xs|
  {
    if xs != [] {
      var front, x := xs[..|xs| - 1], xs[|xs| - 1];
      SquaredDeviationsExpand(front, m);
      ExpandStep(SumOfSquares(front), Sum(front), |front|, x, m);
    }
  }

  /** One more value x adds (x - m)^2 to the expansion. */
  lemma ExpandStep(squares: real, sum: real, count: nat, x: real, m: real)
    ensures Expanded(squares, sum, count, m) + (x - m) * (x - m) == Expanded(squares + x * x, sum + x, count + 1, m)
  {
    assert (x - m) * (x - m) == x * x - 2.0 * m * x + m * m;
    assert (count + 1) as real * m * m == count as real * m * m + m * m;
  }

  /** With m * n = S, the expanded squared deviations divided by n are Q / n - m * m. */
  lemma MeanSquareAlgebra(sum: real, squares: real, count: nat, m: real)
    requires count > 0 && m * count as real == sum
    ensures squares / count as real - m * m == Expanded(squares, sum, count, m) / count as real
  {
    var n := count as real;
    var dev := Expanded(squares, sum, count, m);
    assert 2.0 * m * sum == 2.0 * n * (m * m);
    assert dev == squares - n * (m * m);
    assert dev / n == squares / n - (n * (m * m)) / n;
  }

  lemma QuotientNonNegative(a: real, n: real)
    requires a >= 0.0 && n > 0.0
    ensures a / n >= 0.0
  {
  }

  /** The clamp leaves a variance alone when it equals a non-negative deviation total over n. */
  lemma ClampInactive(sum: real, squares: real, count: nat)
    requires count > 0 && Expanded(squares, sum, count, Mean(sum, count)) >= 0.0
    ensures ClampedVariance(sum, squares, count) == Expanded(squares, sum, count, Mean(sum, count)) / count as real
  {
    var m := Mean(sum, count);
    assert m * count as real == sum;
    MeanSquareAlgebra(sum, squares, count, m);
    QuotientNonNegative(Expanded(squares, sum, count, m), count as real);
  }

  /**
   * In exact arithmetic the variance before the clamp is the mean squared
   * deviation, so it is never negative: the clamp only ever catches
   * floating-point rounding.
   */
  lemma VarianceIsMeanSquaredDeviation(xs: seq<real>)
    requires xs != []
    ensures ClampedVariance(Sum(xs), SumOfSquares(xs), |xs|) == SquaredDeviations(xs, Mean(Sum(xs), |xs|)) / |xs| as real
  {
    var mean := Mean(Sum(xs), |xs|);
    SquaredDeviationsExpand(xs, mean);
    ClampInactive(Sum(xs), SumOfSquares(xs), |xs|);
  }

  /** A key with a single record has standard deviation sqrt(0). */
  lemma SingleRecordHasNoSpread(key: string, x: real, num: Numerics)
    requires KEY_SEPARATOR in key
    ensures ReduceGroup(key, [x], num).Row?
    ensures ReduceGroup(key, [x], num).baseline.mean == x
    ensures ReduceGroup(key, [x], num).baseline.stdDev == num.sqrt(0.0)
  {
    assert [x][..0] == [];
    assert SumOf(Id, [x]) == SumOf(Id, []) + Id(x);
    VarianceIsMeanSquaredDeviation([x]);
  }

  /**
   * Every key the mapper emits splits back into the region and the
   * year-month it was made of, as long as the region holds no '|'; so the
   * reducer's REDUCER_KEY_ERROR branch is unreachable for mapper keys.
   */
  lemma MapperKeyReducesToRow(region: string, yearMonth: string, values: seq<real>, num: Numerics)
    requires values != []
    requires KEY_SEPARATOR !in region && KEY_SEPARATOR !in yearMonth
    ensures ReduceGroup(GroupKey(region, yearMonth), values, num).Row?
    ensures ReduceGroup(GroupKey(region, yearMonth), values, num).baseline.region == region
    ensures ReduceGroup(GroupKey(region, yearMonth), values, num).baseline.yearMonth == yearMonth
  {
    var key := GroupKey(region, yearMonth);
    assert Join([region, yearMonth], KEY_SEPARATOR) == key by {
      assert [region, yearMonth][1..] == [yearMonth];
    }
    SplitJoin([region, yearMonth], KEY_SEPARATOR);
  }

  /**
   * The converse: when the region or the year-month holds '|', the row
   * does not carry both of them back, since the pieces of a split never
   * hold the separator.
   */
  lemma MapperKeyLosesParts(region: string, yearMonth: string, values: seq<real>, num: Numerics)
    requires values != []
    requires KEY_SEPARATOR in region || KEY_SEPARATOR in yearMonth
    ensures ReduceGroup(GroupKey(region, yearMonth), values, num).Row?
    ensures var b := ReduceGroup(GroupKey(region, yearMonth), values, num).baseline;
      b.region != region || b.yearMonth != yearMonth
  {
    var key := GroupKey(region, yearMonth);
    MapperKeyHasNoKeyError(region, yearMonth, values, num);
    SplitPiecesAvoid(key, KEY_SEPARATOR);
    var parts := Split(key, KEY_SEPARATOR);
    assert KEY_SEPARATOR !in parts[0] by {
      forall j | 0 <= j < |parts[0]| ensures parts[0][j] != KEY_SEPARATOR {}
    }
    assert KEY_SEPARATOR !in parts[1] by {
      forall j | 0 <= j < |parts[1]| ensures parts[1][j] != KEY_SEPARATOR {}
    }
  }

  /** Any mapper key reaches the row branch, whatever its region holds. */
  lemma MapperKeyHasNoKeyError(region: string, yearMonth: string, values: seq<real>, num: Numerics)
    requires values != []
    ensures ReduceGroup(GroupKey(region, yearMonth), values, num).Row?
  {
    var key := GroupKey(region, yearMonth);
    assert key[|region|] == KEY_SEPARATOR;
  }
}

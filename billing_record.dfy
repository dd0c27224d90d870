/**
 * The record check that the Stage 1 and Stage 2 mappers both run on a
 * hospital billing line before they use it: enough fields, a region, a
 * date with a year-month, and an amount that parses. Both stages derive
 * the same group key, region|yyyy-MM, from a record that passes.
 */
module BillingRecord {
  import opened Wrappers
  import opened JavaLang

  /** A billing record has at least this many fields. */
  const MIN_FIELDS := 17
  /** Date of admission, e.g. 2024-01-15. */
  const DATE_FIELD := 5
  /** Billing amount. */
  const AMOUNT_FIELD := 9
  /** Region, appended to the dataset by the pre-processing script. */
  const REGION_FIELD := 16
  /** Length of the year-month prefix of the date, e.g. 2024-01. */
  const YEAR_MONTH_LENGTH := 7
  const KEY_SEPARATOR := '|'

  /** Why a record was turned away, or what a good one holds. */
  datatype Check =
    | Malformed
    | InvalidFields
    | InvalidAmount
    | Valid(region: string, yearMonth: string, amount: real)

  /** The grouping key region|yearMonth. */
  function GroupKey(region: string, yearMonth: string): (key: string)
    ensures |key| == |region| + 1 + |yearMonth|
    ensures key[..|region|] == region && key[|region|] == KEY_SEPARATOR && key[|region| + 1..] == yearMonth
  {
    region + [KEY_SEPARATOR] + yearMonth
  }

  predicate HasRegionAndMonth(fields: seq<string>)
    requires |fields| >= MIN_FIELDS
  {
    Trim(fields[REGION_FIELD]) != [] && |Trim(fields[DATE_FIELD])| >= YEAR_MONTH_LENGTH
  }

  /**
   * The checks in the order the mappers make them: the field count, then
   * the region and the date (trimmed), then the amount (trimmed) through
   * Double.parseDouble.
   */
  function CheckRecord(fields: seq<string>, num: Numerics): (c: Check)
    ensures c.Malformed? <==> |fields| < MIN_FIELDS
    ensures c.InvalidFields? <==> |fields| >= MIN_FIELDS && !HasRegionAndMonth(fields)
    ensures c.Valid? <==>
      && |fields| >= MIN_FIELDS && HasRegionAndMonth(fields)
      && num.parseDouble(Trim(fields[AMOUNT_FIELD])).Some?
    ensures c.Valid? ==>
      && c.region == Trim(fields[REGION_FIELD]) && c.region != []
      && |c.yearMonth| == YEAR_MONTH_LENGTH && c.yearMonth == Trim(fields[DATE_FIELD])[..YEAR_MONTH_LENGTH]
      && num.parseDouble(Trim(fields[AMOUNT_FIELD])) == Some(c.amount)
  {
    if |fields| < MIN_FIELDS then Malformed
    else
      var date := Trim(fields[DATE_FIELD]);
      var amountText := Trim(fields[AMOUNT_FIELD]);
      var region := Trim(fields[REGION_FIELD]);
      if region == [] || |date| < YEAR_MONTH_LENGTH then InvalidFields
      else
        match num.parseDouble(amountText)
        case None => InvalidAmount
        case Some(amount) => Valid(region, date[..YEAR_MONTH_LENGTH], amount)
  }

  /** The key of a record that passes the check. */
  function KeyOf(c: Check): string
    requires c.Valid?
  {
    GroupKey(c.region, c.yearMonth)
  }
}

/**
 * Daily consolidation of AWS Cost and Usage Reports
 * (LambdaFiles/ProcessCUR/ProcessCUR.py): the retention setting, the date
 * taken from the report's object key, the aggregation of one report into
 * tag -> product -> usage type costs, and the merge, prune and metadata
 * steps applied to the consolidated table.
 */
module ProcessCur {
  import opened Common

  const DefaultRetentionDays := 30
  const DefaultTagKey := "resourceTags/user:Name"
  const CostColumn := "lineItem/UnblendedCost"
  const ProductColumn := "lineItem/ProductCode"
  const UsageTypeColumn := "lineItem/UsageType"
  const CurrencyColumn := "lineItem/CurrencyCode"
  const PricingCurrencyColumn := "pricing/currency"

  // ---------------------------------------------------------------------
  // DAYS_TO_RETAIN

  /** int() of the setting, with 30 for text that is not an integer or is not positive. */
  function RetentionDays(setting: string): (days: int)
    ensures days > 0
    ensures match ParseInt(setting)
      case Some(n) => days == (if n > 0 then n else DefaultRetentionDays)
      case None => days == DefaultRetentionDays
  {
    match ParseInt(setting)
    case Some(n) => if n <= 0 then DefaultRetentionDays else n
    case None => DefaultRetentionDays
  }

  // ---------------------------------------------------------------------
  // Calendar dates

  datatype Date = Date(year: int, month: int, day: int)

  predicate IsLeap(y: int) {
    y % 4 == 0 && (y % 100 != 0 || y % 400 == 0)
  }

  function DaysInMonth(y: int, m: int): int
    requires 1 <= m <= 12
  {
    if m == 2 then (if IsLeap(y) then 29 else 28)
    else if m == 4 || m == 6 || m == 9 || m == 11 then 30
    else 31
  }

  /** A date Python's datetime accepts. */
  predicate ValidDate(d: Date) {
    1 <= d.year <= 9999 && 1 <= d.month <= 12 && 1 <= d.day <= DaysInMonth(d.year, d.month)
  }

  function DaysBeforeMonth(y: int, m: int): int
    requires 1 <= m <= 13
    decreases m
  {
    if m == 1 then 0 else DaysBeforeMonth(y, m - 1) + DaysInMonth(y, m - 1)
  }

  /** The proleptic Gregorian day number, 1 for 0001-01-01 (date.toordinal()). */
  function Ordinal(d: Date): int
    requires ValidDate(d)
  {
    var y := d.year - 1;
    365 * y + y / 4 - y / 100 + y / 400 + DaysBeforeMonth(d.year, d.month) + d.day
  }

  lemma {:induction false} DaysBeforeMonthGrows(y: int, m: int, m2: int)
    requires 1 <= m < m2 <= 13
    ensures DaysBeforeMonth(y, m2) >= DaysBeforeMonth(y, m) + DaysInMonth(y, m)
    decreases m2 - m
  {
    if m2 > m + 1 {
      DaysBeforeMonthGrows(y, m, m2 - 1);
    }
  }

  lemma DaysInYear(y: int)
    ensures DaysBeforeMonth(y, 13) == if IsLeap(y) then 366 else 365
  {
  }

  /** Within one year, later dates have larger day numbers. */
  lemma OrdinalMonotoneInYear(a: Date, b: Date)
    requires ValidDate(a) && ValidDate(b) && a.year == b.year
    requires a.month < b.month || (a.month == b.month && a.day < b.day)
    ensures Ordinal(a) < Ordinal(b)
  {
    if a.month < b.month {
      DaysBeforeMonthGrows(a.year, a.month, b.month);
    }
  }

  /** YYYY(YY) -> the year as %Y prints it: no zero padding below 1000, as with glibc. */
  function YearText(y: int): string
    requires y >= 0
  {
    NatToString(y)
  }

  // ---------------------------------------------------------------------
  // The date in the object key: the first "/YYYYMMDDTHHMMSSZ/" segment

  predicate DigitsAt(t: string, i: nat, n: nat) {
    i + n <= |t| && AllDigits(t[i..i + n])
  }

  /** The regular expression `/(\d{8})T\d{6}Z/` matches at position i. */
  predicate SegmentAt(t: string, i: nat) {
    i + 18 <= |t| && t[i] == '/' && DigitsAt(t, i + 1, 8) && t[i + 9] == 'T'
    && DigitsAt(t, i + 10, 6) && t[i + 16] == 'Z' && t[i + 17] == '/'
  }

  /** re.search: the leftmost match at or after `from`. */
  function FindSegment(t: string, from: nat): (r: Option<nat>)
    ensures r.Some? ==> from <= r.value && SegmentAt(t, r.value)
    ensures r.Some? ==> forall j :: from <= j < r.value ==> !SegmentAt(t, j)
    ensures r.None? ==> forall j :: from <= j ==> !SegmentAt(t, j)
    decreases |t| - from
  {
    if from + 18 > |t| then None
    else if SegmentAt(t, from) then Some(from)
    else FindSegment(t, from + 1)
  }

  /** Two digits of %m in an eight-digit %Y%m%d: 01 to 12. */
  predicate MonthDigits(m: string) {
    |m| == 2 && ((m[0] == '1' && '0' <= m[1] <= '2') || (m[0] == '0' && '1' <= m[1] <= '9'))
  }

  /** Two digits of %d in an eight-digit %Y%m%d: 01 to 31. */
  predicate DayDigits(d: string) {
    |d| == 2 && ((d[0] == '3' && (d[1] == '0' || d[1] == '1'))
                 || ((d[0] == '1' || d[0] == '2') && IsDigit(d[1]))
                 || (d[0] == '0' && '1' <= d[1] <= '9'))
  }

  /**
   * strptime(s, '%Y%m%d') on eight digits: %m and %d are one or two digits
   * each, so with four digits left both take exactly two.
   */
  function ParseCompactDate(s: string): Option<Date>
    requires |s| == 8 && AllDigits(s)
  {
    var m := s[4..6];
    var d := s[6..8];
    if !MonthDigits(m) || !DayDigits(d) then None
    else
      var date := Date(DigitsValue(s[..4]), DigitsValue(m), DigitsValue(d));
      if ValidDate(date) then Some(date) else None
  }

  /** The rendered date, or None for "no segment" and "segment with an impossible date". */
  function KeyDate(objectKey: string): Option<string> {
    var t := "/" + objectKey + "/";
    match FindSegment(t, 0)
    case None => None
    case Some(i) =>
      var digits := t[i + 1..i + 9];
      match ParseCompactDate(digits)
      case None => None
      case Some(_) => Some(YearText(DigitsValue(digits[..4])) + "-" + digits[4..6] + "-" + digits[6..8])
  }

  /** A key whose first directory is a valid report timestamp gives that date. */
  lemma KeyDateOfLeadingSegment(stamp: string, rest: string)
    requires |stamp| == 16 && AllDigits(stamp[..8]) && stamp[8] == 'T' && AllDigits(stamp[9..15]) && stamp[15] == 'Z'
    requires DigitsValue(stamp[..4]) >= 1000
    requires ParseCompactDate(stamp[..8]).Some?
    ensures KeyDate(stamp + "/" + rest) == Some(stamp[..4] + "-" + stamp[4..6] + "-" + stamp[6..8])
  {
    var t := "/" + (stamp + "/" + rest) + "/";
    assert t[1..9] == stamp[..8];
    assert t[10..16] == stamp[9..15];
    assert SegmentAt(t, 0);
    assert FindSegment(t, 0) == Some(0);
    var digits := t[1..9];
    assert digits == stamp[..8];
    assert digits[..4] == stamp[..4] && digits[4..6] == stamp[4..6] && digits[6..8] == stamp[6..8];
    var y := stamp[..4];
    assert y[0] != '0' by {
      if y[0] == '0' {
        assert DigitsValue(y) == DigitsValue(y[1..]) by { LeadingZero(y); }
        DigitsBound(y[1..]);
      }
    }
    NatToStringOfDigits(y);
  }

  lemma {:induction false} DigitsBound(s: string)
    requires AllDigits(s)
    ensures DigitsValue(s) < Pow10(|s|)
    decreases |s|
  {
    if |s| > 0 {
      DigitsBound(s[..|s| - 1]);
    }
  }

  lemma {:induction false} LeadingZero(s: string)
    requires |s| > 0 && AllDigits(s) && s[0] == '0'
    ensures DigitsValue(s) == DigitsValue(s[1..])
    decreases |s|
  {
    if |s| > 1 {
      LeadingZero(s[..|s| - 1]);
      assert s[1..][..|s[1..]| - 1] == s[..|s| - 1][1..];
    }
  }

  /** Digits with no leading zero are printed back as they were. */
  lemma {:induction false} NatToStringOfDigits(s: string)
    requires |s| > 0 && AllDigits(s) && s[0] != '0'
    ensures NatToString(DigitsValue(s)) == s
    decreases |s|
  {
    if |s| == 1 {
      assert DigitsValue(s) == DigitValue(s[0]);
    } else {
      var init := s[..|s| - 1];
      NatToStringOfDigits(init);
      DigitsBound(init);
      assert DigitsValue(init) >= 1 by {
        if DigitsValue(init) == 0 { ZeroDigits(init); }
      }
      assert DigitsValue(s) / 10 == DigitsValue(init);
      assert DigitsValue(s) % 10 == DigitValue(s[|s| - 1]);
    }
  }

  lemma {:induction false} ZeroDigits(s: string)
    requires |s| > 0 && AllDigits(s) && DigitsValue(s) == 0
    ensures s[0] == '0'
    decreases |s|
  {
    if |s| > 1 {
      ZeroDigits(s[..|s| - 1]);
    }
  }

  // ---------------------------------------------------------------------
  // Aggregation of one report

  /**
   * A CSV row: column -> cell. A column the header does not name is absent;
   * a header column a short row leaves unfilled holds None.
   */
  type Row = map<string, Option<string>>

  /** One tag's costs for the day. */
  datatype TagDay = TagDay(total: real, byProduct: map<string, map<string, real>>)

  /** `row.get(col)` when it is truthy: present, filled and non-empty. */
  function Truthy(row: Row, col: string): Option<string> {
    if col in row && row[col].Some? && row[col].value != "" then row[col] else None
  }

  /** Decimal(cost) for a non-empty cost, with 0 when it is missing or not a number. */
  function RowCost(row: Row): real {
    match Truthy(row, CostColumn)
    case None => 0.0
    case Some(text) =>
      match DecimalText(Strip(text))
      case None => 0.0
      case Some(v) => v
  }

  function TagOf(row: Row, tagKey: string): string {
    match Truthy(row, tagKey) case Some(t) => t case None => "Untagged"
  }

  function ProductOf(row: Row): string {
    match Truthy(row, ProductColumn) case Some(p) => p case None => "UnknownProduct"
  }

  function UsageTypeOf(row: Row): string {
    match Truthy(row, UsageTypeColumn) case Some(u) => u case None => "UnknownUsageType"
  }

  /** One row's contribution: zero-cost rows are skipped. */
  function AddRow(acc: map<string, TagDay>, row: Row, tagKey: string): map<string, TagDay> {
    var cost := RowCost(row);
    if cost == 0.0 then acc
    else AddCost(acc, TagOf(row, tagKey), ProductOf(row), UsageTypeOf(row), cost)
  }

  /** `cost` added to the tag's total and to its (product, usage type) entry, both created when missing. */
  function AddCost(acc: map<string, TagDay>, tag: string, product: string, usage: string, cost: real): map<string, TagDay> {
    var td := if tag in acc then acc[tag] else TagDay(0.0, map[]);
    var usages := if product in td.byProduct then td.byProduct[product] else map[];
    var prev := if usage in usages then usages[usage] else 0.0;
    acc[tag := TagDay(td.total + cost, td.byProduct[product := usages[usage := prev + cost]])]
  }

  function Aggregate(rows: seq<Row>, tagKey: string): map<string, TagDay>
    decreases |rows|
  {
    if |rows| == 0 then map[]
    else AddRow(Aggregate(rows[..|rows| - 1], tagKey), rows[|rows| - 1], tagKey)
  }

  /**
   * The row's currency: `lineItem/CurrencyCode` when that column exists
   * (even if empty or unfilled), else `pricing/currency`; None when the pick
   * is falsy.
   */
  function RowCurrency(row: Row): (r: Option<string>)
    ensures CurrencyColumn in row ==> r == Truthy(row, CurrencyColumn)
    ensures CurrencyColumn !in row ==> r == Truthy(row, PricingCurrencyColumn)
  {
    var pick := if CurrencyColumn in row then row[CurrencyColumn]
                else if PricingCurrencyColumn in row then row[PricingCurrencyColumn] else None;
    if pick == Some("") then None else pick
  }

  /** The first row currency in `rows`. */
  function FirstCurrency(rows: seq<Row>): Option<string>
    decreases |rows|
  {
    if |rows| == 0 then None
    else
      var earlier := FirstCurrency(rows[..|rows| - 1]);
      if earlier.Some? then earlier else RowCurrency(rows[|rows| - 1])
  }

  function Min(a: int, b: int): int {
    if a < b then a else b
  }

  /** Only the first ten rows are searched for a currency. */
  function ReportCurrency(rows: seq<Row>): Option<string> {
    FirstCurrency(rows[..Min(10, |rows|)])
  }

  /** The body of the row loop: create the missing levels, then add the cost at each. */
  method AddRowInPlace(acc: map<string, TagDay>, row: Row, tagKey: string) returns (costs: map<string, TagDay>)
    ensures costs == AddRow(acc, row, tagKey)
  {
    costs := acc;
    var cost := RowCost(row);
    if cost == 0.0 {
      return;
    }
    var tag := TagOf(row, tagKey);
    var product := ProductOf(row);
    var usage := UsageTypeOf(row);
    costs := AddCostInPlace(costs, tag, product, usage, cost);
  }

  /** Creating the missing levels of the row's tag, product and usage type, then adding the cost at each. */
  method AddCostInPlace(acc: map<string, TagDay>, tag: string, product: string, usage: string, cost: real)
    returns (costs: map<string, TagDay>)
    ensures costs == AddCost(acc, tag, product, usage, cost)
  {
    costs := acc;
    if tag !in costs {
      costs := costs[tag := TagDay(0.0, map[])];
    }
    var td := costs[tag];
    assert td == if tag in acc then acc[tag] else TagDay(0.0, map[]);
    var usages: map<string, real> := map[];
    if product in td.byProduct {
      usages := td.byProduct[product];
    }
    var prev := 0.0;
    if usage in usages {
      prev := usages[usage];
    }
    var updated := TagDay(td.total + cost, td.byProduct[product := usages[usage := prev + cost]]);
    if tag !in acc {
      UpdateTwice(acc, tag, TagDay(0.0, map[]), updated);
    }
    costs := costs[tag := updated];
  }

  lemma AggregateStep(rows: seq<Row>, k: nat, tagKey: string)
    requires k < |rows|
    ensures Aggregate(rows[..k + 1], tagKey) == AddRow(Aggregate(rows[..k], tagKey), rows[k], tagKey)
  {
    assert rows[..k + 1][..k] == rows[..k];
  }

  lemma CurrencyStep(rows: seq<Row>, k: nat)
    requires k < |rows|
    ensures FirstCurrency(rows[..Min(10, k + 1)])
      == if k + 1 <= 10 && FirstCurrency(rows[..Min(10, k)]).None? then RowCurrency(rows[k])
         else FirstCurrency(rows[..Min(10, k)])
  {
    assert rows[..k + 1][..k] == rows[..k];
    assert rows[..Min(10, k + 1)] == if k + 1 <= 10 then rows[..k + 1] else rows[..Min(10, k)];
  }

  /** The currency check of the row loop: only the first ten rows are looked at, and the first code found stays. */
  method NoteCurrency(rows: seq<Row>, k: nat, currency: Option<string>, found: bool)
    returns (currency': Option<string>, found': bool)
    requires k < |rows|
    requires currency == FirstCurrency(rows[..Min(10, k)])
    requires found <==> currency.Some?
    ensures currency' == FirstCurrency(rows[..Min(10, k + 1)])
    ensures found' <==> currency'.Some?
  {
    CurrencyStep(rows, k);
    currency', found' := currency, found;
    if !found && k + 1 <= 10 {
      var c := RowCurrency(rows[k]);
      if c.Some? {
        currency', found' := c, true;
      }
    }
  }

  /** The loop over the CSV rows. */
  method ProcessRows(rows: seq<Row>, tagKey: string) returns (costs: map<string, TagDay>, currency: Option<string>)
    ensures costs == Aggregate(rows, tagKey)
    ensures currency == ReportCurrency(rows)
  {
    costs := map[];
    currency := None;
    var found := false;
    var k := 0;
    while k < |rows|
      invariant 0 <= k <= |rows|
      invariant costs == Aggregate(rows[..k], tagKey)
      invariant currency == FirstCurrency(rows[..Min(10, k)])
      invariant found <==> currency.Some?
    {
      var row := rows[k];
      currency, found := NoteCurrency(rows, k, currency, found);
      AggregateStep(rows, k, tagKey);
      costs := AddRowInPlace(costs, row, tagKey);
      k := k + 1;
    }
    assert rows[..|rows|] == rows;
  }

  // ---------------------------------------------------------------------
  // Sums over maps, to state that each tag's total is the sum of its parts

  ghost function MapSum(m: map<string, real>): real
    decreases |m|
  {
    if m == map[] then 0.0
    else
      var k :| k in m;
      m[k] + MapSum(m - {k})
  }

  lemma {:induction false} MapSumRemove(m: map<string, real>, k: string)
    requires k in m
    ensures MapSum(m) == m[k] + MapSum(m - {k})
    decreases |m|
  {
    var j :| j in m && MapSum(m) == m[j] + MapSum(m - {j});
    if j != k {
      MapSumRemove(m - {j}, k);
      MapSumRemove(m - {k}, j);
      assert (m - {j}) - {k} == (m - {k}) - {j};
    }
  }

  lemma MapSumUpdate(m: map<string, real>, k: string, v: real)
    ensures MapSum(m[k := v]) == MapSum(m) - (if k in m then m[k] else 0.0) + v
  {
    MapSumRemove(m[k := v], k);
    assert m[k := v] - {k} == m - {k};
    if k in m {
      MapSumRemove(m, k);
    } else {
      assert m - {k} == m;
    }
  }

  /** The sum over every product and usage type. */
  ghost function NestedSum(byProduct: map<string, map<string, real>>): real {
    MapSum(map p | p in byProduct :: MapSum(byProduct[p]))
  }

  lemma NestedSumUpdate(byProduct: map<string, map<string, real>>, p: string, u: string, c: real)
    ensures var usages := if p in byProduct then byProduct[p] else map[];
      var prev := if u in usages then usages[u] else 0.0;
      NestedSum(byProduct[p := usages[u := prev + c]]) == NestedSum(byProduct) + c
  {
    var usages := if p in byProduct then byProduct[p] else map[];
    var prev := if u in usages then usages[u] else 0.0;
    var v := usages[u := prev + c];
    MapSumUpdate(usages, u, prev + c);
    assert MapSum(v) == MapSum(usages) + c;
    NestedSumSet(byProduct, p, v);
    if p !in byProduct {
      assert MapSum(usages) == 0.0;
    }
  }

  /** Replacing one product's usage map changes the nested sum by the difference of its sums. */
  lemma NestedSumSet(byProduct: map<string, map<string, real>>, p: string, v: map<string, real>)
    ensures NestedSum(byProduct[p := v])
      == NestedSum(byProduct) - (if p in byProduct then MapSum(byProduct[p]) else 0.0) + MapSum(v)
  {
    var after := byProduct[p := v];
    var sums := map q | q in byProduct :: MapSum(byProduct[q]);
    assert (map q | q in after :: MapSum(after[q])) == sums[p := MapSum(v)];
    MapSumUpdate(sums, p, MapSum(v));
  }

  lemma NestedSumNoProducts(byProduct: map<string, map<string, real>>)
    ensures byProduct == map[] ==> NestedSum(byProduct) == 0.0
  {
    var sums := map q | q in byProduct :: MapSum(byProduct[q]);
    assert byProduct == map[] ==> sums == map[];
  }

  ghost predicate TotalsConsistent(costs: map<string, TagDay>) {
    forall t :: t in costs ==> costs[t].total == NestedSum(costs[t].byProduct)
  }

  lemma AddRowTotals(acc: map<string, TagDay>, row: Row, tagKey: string)
    requires TotalsConsistent(acc)
    ensures TotalsConsistent(AddRow(acc, row, tagKey))
  {
    if RowCost(row) != 0.0 {
      AddCostTotals(acc, TagOf(row, tagKey), ProductOf(row), UsageTypeOf(row), RowCost(row));
    }
  }

  lemma AddCostTotals(acc: map<string, TagDay>, tag: string, product: string, usage: string, cost: real)
    requires TotalsConsistent(acc)
    ensures TotalsConsistent(AddCost(acc, tag, product, usage, cost))
  {
    var td := if tag in acc then acc[tag] else TagDay(0.0, map[]);
    NestedSumNoProducts(td.byProduct);
    NestedSumUpdate(td.byProduct, product, usage, cost);
    var r := AddCost(acc, tag, product, usage, cost);
    forall t | t in r ensures r[t].total == NestedSum(r[t].byProduct) {
      if t != tag {
        assert r[t] == acc[t];
      }
    }
  }

  /** Each tag's total is the sum of the costs under all its products and usage types. */
  lemma {:induction false} AggregateTotals(rows: seq<Row>, tagKey: string)
    ensures TotalsConsistent(Aggregate(rows, tagKey))
    decreases |rows|
  {
    if |rows| > 0 {
      AggregateTotals(rows[..|rows| - 1], tagKey);
      AddRowTotals(Aggregate(rows[..|rows| - 1], tagKey), rows[|rows| - 1], tagKey);
    }
  }

  /**
   * A costed row lands under its tag ("Untagged" when missing or empty),
   * product and usage type, raising that usage entry and the tag total by its cost.
   */
  lemma RowPlacement(acc: map<string, TagDay>, row: Row, tagKey: string)
    requires RowCost(row) != 0.0
    ensures var r := AddRow(acc, row, tagKey);
      var tag := TagOf(row, tagKey);
      var old_ := if tag in acc then acc[tag] else TagDay(0.0, map[]);
      var usages := if ProductOf(row) in old_.byProduct then old_.byProduct[ProductOf(row)] else map[];
      && tag in r && r[tag].total == old_.total + RowCost(row)
      && ProductOf(row) in r[tag].byProduct && UsageTypeOf(row) in r[tag].byProduct[ProductOf(row)]
      && r[tag].byProduct[ProductOf(row)][UsageTypeOf(row)]
         == (if UsageTypeOf(row) in usages then usages[UsageTypeOf(row)] else 0.0) + RowCost(row)
      && (forall t :: t in acc && t != tag ==> t in r && r[t] == acc[t])
      && (tag == "Untagged" <==> Truthy(row, tagKey).None? || row[tagKey] == Some("Untagged"))
  {
  }

  /** Zero-cost rows (including missing or unparsable costs) change nothing. */
  lemma ZeroCostSkipped(acc: map<string, TagDay>, row: Row, tagKey: string)
    requires Truthy(row, CostColumn).None? || DecimalText(Strip(row[CostColumn].value)).None?
    ensures AddRow(acc, row, tagKey) == acc
  {
  }

  /** The currency is the first non-empty one among the first ten rows. */
  lemma {:induction false} FirstCurrencyIsFirst(rows: seq<Row>)
    ensures FirstCurrency(rows).None? <==> forall i :: 0 <= i < |rows| ==> RowCurrency(rows[i]).None?
    ensures FirstCurrency(rows).Some? ==>
      exists i :: 0 <= i < |rows| && RowCurrency(rows[i]) == FirstCurrency(rows)
        && forall j :: 0 <= j < i ==> RowCurrency(rows[j]).None?
    decreases |rows|
  {
    if |rows| > 0 {
      var init := rows[..|rows| - 1];
      FirstCurrencyIsFirst(init);
      assert forall i :: 0 <= i < |init| ==> init[i] == rows[i];
    }
  }

  // ---------------------------------------------------------------------
  // process_cur_file

  /** The CSV rows, or None when the object could not be read, un-gzipped or decoded. */
  datatype Report = Unreadable | Rows(rows: seq<Row>)

  datatype CurResult = Failed | Parsed(date: string, costs: map<string, TagDay>, currency: Option<string>)

  function ProcessCurFile(objectKey: string, report: Report, tagKey: string): CurResult {
    match KeyDate(objectKey)
    case None => Failed
    case Some(date) =>
      match report
      case Unreadable => Failed
      case Rows(rows) => Parsed(date, Aggregate(rows, tagKey), ReportCurrency(rows))
  }

  // ---------------------------------------------------------------------
  // Merge, prune and metadata on the consolidated table

  /** `consolidated[tag][date] = day_data` for every tag of the new day. */
  function MergeSpec(costs: map<string, map<string, TagDay>>, date: string, day: map<string, TagDay>): map<string, map<string, TagDay>> {
    map t | t in costs.Keys + day.Keys ::
      if t in day then (if t in costs then costs[t] else map[])[date := day[t]] else costs[t]
  }

  /** The ISO-style date key as strptime('%Y-%m-%d') reads it: %m and %d may be one digit. */
  function ParseDashedDate(s: string): Option<Date> {
    if |s| < 8 || !AllDigits(s[..4]) || s[4] != '-' then None
    else
      var rest := s[5..];
      match Find(rest, "-")
      case None => None
      case Some(j) =>
        var m := rest[..j];
        var d := rest[j + 1..];
        if !MonthField(m) || !DayField(d) then None
        else
          var date := Date(DigitsValue(s[..4]), FieldValue(m), FieldValue(d));
          if ValidDate(date) then Some(date) else None
  }

  /** strptime's %m: `1[0-2]|0[1-9]|[1-9]`. */
  predicate MonthField(m: string) {
    MonthDigits(m) || (|m| == 1 && '1' <= m[0] <= '9')
  }

  /** strptime's %d: `3[01]|[12]\d|0[1-9]|[1-9]| [1-9]`. */
  predicate DayField(d: string) {
    DayDigits(d) || (|d| == 1 && '1' <= d[0] <= '9') || (|d| == 2 && d[0] == ' ' && '1' <= d[1] <= '9')
  }

  function FieldValue(f: string): int {
    if |f| == 2 && f[0] == ' ' && IsDigit(f[1]) then DigitValue(f[1])
    else if AllDigits(f) then DigitsValue(f) else 0
  }

  /** A date key strictly before the cutoff day number; unparsable keys are never old. */
  predicate IsOld(dateKey: string, cutoff: int) {
    match ParseDashedDate(dateKey)
    case None => false
    case Some(d) => Ordinal(d) < cutoff
  }

  function PrunedDates(dates: map<string, TagDay>, cutoff: int): map<string, TagDay> {
    map d | d in dates && !IsOld(d, cutoff) :: dates[d]
  }

  function PruneSpec(costs: map<string, map<string, TagDay>>, cutoff: int): map<string, map<string, TagDay>> {
    map t | t in costs && PrunedDates(costs[t], cutoff) != map[] :: PrunedDates(costs[t], cutoff)
  }

  /** Once every tag of the day is written, the table is MergeSpec. */
  lemma MergedAll(orig: map<string, map<string, TagDay>>, cur: map<string, map<string, TagDay>>,
                  date: string, day: map<string, TagDay>)
    requires cur.Keys == orig.Keys + day.Keys
    requires forall t :: t in cur ==> cur[t] == if t in day then MergeSpec(orig, date, day)[t] else orig[t]
    ensures cur == MergeSpec(orig, date, day)
  {
  }

  /** Every written entry is the new day's data; every other tag/date entry is as before. */
  lemma MergeEffect(costs: map<string, map<string, TagDay>>, date: string, day: map<string, TagDay>, t: string, d: string)
    ensures var r := MergeSpec(costs, date, day);
      && (t in r <==> t in costs || t in day)
      && (t in day && d == date ==> d in r[t] && r[t][d] == day[t])
      && (t !in day || d != date ==>
            (t in r && d in r[t] <==> t in costs && d in costs[t])
            && (t in costs && d in costs[t] ==> r[t][d] == costs[t][d]))
  {
  }

  /** Pruning drops exactly the old dates, keeps unparsable keys, and drops tags left empty. */
  lemma PruneEffect(costs: map<string, map<string, TagDay>>, cutoff: int, t: string, d: string)
    ensures var r := PruneSpec(costs, cutoff);
      && (t in r && d in r[t] <==> t in costs && d in costs[t] && !IsOld(d, cutoff))
      && (t in r && d in r[t] ==> r[t][d] == costs[t][d])
      && (t in r ==> r[t] != map[])
      && (t in costs && d in costs[t] && ParseDashedDate(d).None? ==> t in r && d in r[t])
  {
    if t in costs && d in costs[t] && !IsOld(d, cutoff) {
      assert d in PrunedDates(costs[t], cutoff);
    }
  }

  /** Once every tag's dates are pruned, dropping the tags left empty gives PruneSpec. */
  lemma PrunedAll(orig: map<string, map<string, TagDay>>, cur: map<string, map<string, TagDay>>,
                  empty: set<string>, cutoff: int)
    requires cur.Keys == orig.Keys
    requires forall t :: t in cur ==> cur[t] == PrunedDates(orig[t], cutoff)
    requires forall t :: t in empty <==> t in cur && cur[t] == map[]
    ensures cur - empty == PruneSpec(orig, cutoff)
  {
  }

  datatype Metadata = Metadata(lastProcessedDate: Option<string>, lastUpdated: Option<string>,
                               daysRetained: int, currency: Option<string>)

  function UpdateMetadataSpec(md: Metadata, date: string, timestamp: string, days: int, currency: Option<string>): Metadata {
    Metadata(Some(date), Some(timestamp), days,
             if currency.Some? && currency.value != "" && (md.currency.None? || md.currency.value == "") then currency else md.currency)
  }

  /** An existing currency is never overwritten. */
  lemma CurrencySetOnce(md: Metadata, date: string, timestamp: string, days: int, currency: Option<string>)
    requires md.currency.Some? && md.currency.value != ""
    ensures UpdateMetadataSpec(md, date, timestamp, days, currency).currency == md.currency
  {
  }

  datatype Response = Response(statusCode: int, updatedTags: int)

  /** The consolidated JSON file: its cost table and metadata, updated in place. */
  class ConsolidatedFile {
    var costs: map<string, map<string, TagDay>>
    var metadata: Metadata

    /** The structure a missing file is initialised with. */
    constructor(days: int)
      ensures costs == map[] && metadata == Metadata(None, None, days, None)
    {
      costs := map[];
      metadata := Metadata(None, None, days, None);
    }

    /** One pass of the merge loop: create the tag if missing, then write the day under it. */
    method MergeTag(t: string, date: string, entry: TagDay)
      modifies this`costs
      ensures costs == old(costs)[t := (if t in old(costs) then old(costs)[t] else map[])[date := entry]]
    {
      if t !in costs {
        costs := costs[t := map[]];
      }
      costs := costs[t := costs[t][date := entry]];
    }

    method Merge(date: string, day: map<string, TagDay>)
      modifies this
      ensures costs == MergeSpec(old(costs), date, day)
      ensures metadata == old(metadata)
    {
      var todo := day.Keys;
      while todo != {}
        invariant todo <= day.Keys
        invariant costs.Keys == old(costs).Keys + (day.Keys - todo)
        invariant forall t :: t in costs ==>
          costs[t] == if t in day && t !in todo then MergeSpec(old(costs), date, day)[t] else old(costs)[t]
        modifies this`costs
        decreases todo
      {
        var t :| t in todo;
        MergeTag(t, date, day[t]);
        todo := todo - {t};
      }
      MergedAll(old(costs), costs, date, day);
    }

    /** The keys of one tag's dates that are older than the cutoff. */
    static method DatesToDelete(dates: map<string, TagDay>, cutoff: int) returns (old_: set<string>)
      ensures old_ == set d | d in dates && IsOld(d, cutoff)
    {
      old_ := {};
      var todo := dates.Keys;
      while todo != {}
        invariant todo <= dates.Keys
        invariant old_ == set d | d in dates && d !in todo && IsOld(d, cutoff)
        decreases todo
      {
        var d :| d in todo;
        if IsOld(d, cutoff) {
          old_ := old_ + {d};
        }
        todo := todo - {d};
      }
    }

    /** One pass of the pruning loop: delete the tag's old dates and say whether none are left. */
    method PruneTag(t: string, cutoff: int) returns (emptied: bool)
      requires t in costs
      modifies this`costs
      ensures costs == old(costs)[t := PrunedDates(old(costs)[t], cutoff)]
      ensures emptied <==> PrunedDates(old(costs)[t], cutoff) == map[]
    {
      var stale := DatesToDelete(costs[t], cutoff);
      var kept := costs[t] - stale;
      assert kept == PrunedDates(costs[t], cutoff);
      costs := costs[t := kept];
      emptied := kept == map[];
    }

    method Prune(cutoff: int)
      modifies this
      ensures costs == PruneSpec(old(costs), cutoff)
      ensures metadata == old(metadata)
    {
      var todo := costs.Keys;
      var empty: set<string> := {};
      while todo != {}
        invariant todo <= costs.Keys && costs.Keys == old(costs).Keys
        invariant forall t :: t in costs ==>
          costs[t] == if t in todo then old(costs)[t] else PrunedDates(old(costs)[t], cutoff)
        invariant empty <= costs.Keys
        invariant forall t :: t in empty <==> t in costs && t !in todo && costs[t] == map[]
        modifies this`costs
        decreases todo
      {
        var t :| t in todo;
        var emptied := PruneTag(t, cutoff);
        if emptied {
          empty := empty + {t};
        }
        todo := todo - {t};
      }
      PrunedAll(old(costs), costs, empty, cutoff);
      costs := costs - empty;
    }

    method UpdateMetadata(date: string, timestamp: string, days: int, currency: Option<string>)
      modifies this
      ensures metadata == UpdateMetadataSpec(old(metadata), date, timestamp, days, currency)
      ensures costs == old(costs)
    {
      var c := metadata.currency;
      if currency.Some? && currency.value != "" && (c.None? || c.value == "") {
        c := currency;
      }
      metadata := Metadata(Some(date), Some(timestamp), days, c);
    }

    /**
     * Steps 3 to 8 of the handler on an already loaded file. `todayOrdinal`
     * is today's day number (UTC) and `timestamp` the current time as text.
     */
    method ApplyReport(objectKey: string, report: Report, tagKey: string, days: int,
                       todayOrdinal: int, timestamp: string, saveOk: bool) returns (response: Response)
      modifies this
      ensures ProcessCurFile(objectKey, report, tagKey).Failed? ==>
        response == Response(200, 0) && costs == old(costs) && metadata == old(metadata)
      ensures var r := ProcessCurFile(objectKey, report, tagKey);
        r.Parsed? ==>
          && costs == PruneSpec(MergeSpec(old(costs), r.date, r.costs), todayOrdinal - days)
          && metadata == UpdateMetadataSpec(old(metadata), r.date, timestamp, days, r.currency)
          && response == Response(if saveOk then 200 else 500, |r.costs|)
    {
      var date := KeyDate(objectKey);
      if date.None? || report.Unreadable? {
        return Response(200, 0);
      }
      var dayCosts, currency := ProcessRows(report.rows, tagKey);
      assert ProcessCurFile(objectKey, report, tagKey) == Parsed(date.value, dayCosts, currency);
      response := ApplyDay(date.value, dayCosts, currency, days, todayOrdinal, timestamp, saveOk);
    }

    /** Steps 4 to 8 once the day's costs are aggregated: merge, prune, metadata, save. */
    method ApplyDay(date: string, dayCosts: map<string, TagDay>, currency: Option<string>, days: int,
                    todayOrdinal: int, timestamp: string, saveOk: bool) returns (response: Response)
      modifies this
      ensures costs == PruneSpec(MergeSpec(old(costs), date, dayCosts), todayOrdinal - days)
      ensures metadata == UpdateMetadataSpec(old(metadata), date, timestamp, days, currency)
      ensures response == Response(if saveOk then 200 else 500, |dayCosts|)
    {
      ghost var merged := MergeSpec(costs, date, dayCosts);
      Merge(date, dayCosts);
      assert costs == merged;
      Prune(todayOrdinal - days);
      assert costs == PruneSpec(merged, todayOrdinal - days);
      UpdateMetadata(date, timestamp, days, currency);
      response := Response(if saveOk then 200 else 500, |dayCosts|);
    }
  }
}

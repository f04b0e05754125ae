/** Text forms inside a bookmark: dates, periods, drill-downs, currencies, sorts and search anchors. */
module ViewCodec {
  import opened Wrappers
  import opened Text
  import opened Calendar
  import opened Periods

  datatype CurrencyScope = CurrencyScope(currency: string, scale: nat)

  datatype Drilldown = Drilldown(dimension: string, currency: string, scale: nat, key: string, name: string,
      period: Option<Period>)

  datatype Anchor = Anchor(mode: string, depth: int)

  datatype SortSpec = SortSpec(field: string, direction: string)

  const TIME := "time"

  function Split(s: string, c: char): (parts: seq<string>)
    ensures |parts| > 0
    decreases |s|
  {
    CutParts(s, c);
    var (head, tail, found) := Cut(s, c);
    if found then [head] + Split(tail, c) else [head]
  }

  lemma SplitJoined(a: string, b: string, c: char)
    requires Free(a, c)
    ensures Split(a + [c] + b, c) == [a] + Split(b, c)
  {
    CutJoined(a, b, c);
  }

  lemma SplitFree(a: string, c: char)
    requires Free(a, c)
    ensures Split(a, c) == [a]
  {
    CutFree(a, c);
  }

  // Dates -----------------------------------------------------------------------------------------------------

  function DateText(year: nat, month: nat, day: nat): string {
    Padded(year, 4) + "-" + Padded(month, 2) + "-" + Padded(day, 2)
  }

  function FormatDate(d: Date): string
    requires Valid(d)
  {
    DateText(d.year, d.month, d.day)
  }

  /** An ISO date, in canonical form only. */
  function ParseDate(s: string): Option<Date> {
    var parts := Split(s, '-');
    if |parts| != 3 then None
    else
      var y, m, d := ParseDigits(parts[0]), ParseDigits(parts[1]), ParseDigits(parts[2]);
      if y.None? || m.None? || d.None? then None
      else
        var date := NewDate(y.value, m.value, d.value);
        if date.Some? && FormatDate(date.value) == s then date else None
  }

  lemma DateParts(year: nat, month: nat, day: nat)
    ensures Split(DateText(year, month, day), '-') == [Padded(year, 4), Padded(month, 2), Padded(day, 2)]
  {
    var y, m, d := Padded(year, 4), Padded(month, 2), Padded(day, 2);
    DigitsAreFree(y, '-');
    DigitsAreFree(m, '-');
    DigitsAreFree(d, '-');
    assert DateText(year, month, day) == y + ['-'] + (m + ['-'] + d);
    SplitJoined(y, m + ['-'] + d, '-');
    SplitJoined(m, d, '-');
    SplitFree(d, '-');
    hide Split, Padded;
  }

  lemma DateRoundTrip(d: Date)
    requires Valid(d)
    ensures ParseDate(FormatDate(d)) == Some(d)
  {
    DateParts(d.year, d.month, d.day);
    ParsePadded(d.year, 4);
    ParsePadded(d.month, 2);
    ParsePadded(d.day, 2);
    hide Split, Padded, ParseDigits;
  }

  // Periods ---------------------------------------------------------------------------------------------------

  function GranularityText(g: Granularity): string {
    match g
    case Year => "year"
    case Month => "month"
    case Day => "day"
  }

  function GranularityOf(s: string): Option<Granularity> {
    if s == "year" then Some(Year) else if s == "month" then Some(Month) else if s == "day" then Some(Day) else None
  }

  function PeriodDate(p: Period): string
    requires ValidPeriod(p)
  {
    match p.granularity
    case Year => Padded(p.year, 4)
    case Month => Padded(p.year, 4) + "-" + Padded(p.month, 2)
    case Day => DateText(p.year, p.month, p.day)
  }

  function FormatPeriod(p: Period): string
    requires ValidPeriod(p)
  {
    GranularityText(p.granularity) + ":" + PeriodDate(p)
  }

  predicate Contains(s: string, c: char) {
    exists i :: 0 <= i < |s| && s[i] == c
  }

  /** A period in canonical form only; missing parts are zero. */
  function ParsePeriod(s: string): Option<Period> {
    var (granularityText, dateText, found) := Cut(s, ':');
    var g := GranularityOf(granularityText);
    var parts := Split(dateText, '-');
    if !found || Contains(dateText, ':') || g.None? || |parts| > 3 then None
    else
      var y := ParseInt(parts[0]);
      var m := if |parts| > 1 then ParseInt(parts[1]) else Some(0);
      var d := if |parts| > 2 then ParseInt(parts[2]) else Some(0);
      if y.None? || m.None? || d.None? then None
      else
        var p := Period(g.value, y.value, m.value, d.value);
        if ValidPeriod(p) && FormatPeriod(p) == s then Some(p) else None
  }

  lemma PeriodParts(p: Period)
    requires ValidPeriod(p)
    ensures Free(PeriodDate(p), ':')
    ensures Split(PeriodDate(p), '-') ==
            [Padded(p.year, 4)] + (if p.granularity == Year then [] else [Padded(p.month, 2)])
            + (if p.granularity == Day then [Padded(p.day, 2)] else [])
  {
    var y := Padded(p.year, 4);
    DigitsAreFree(y, '-');
    match p.granularity
    case Year => SplitFree(y, '-');
    case Month =>
      var m := Padded(p.month, 2);
      DigitsAreFree(m, '-');
      assert PeriodDate(p) == y + ['-'] + m;
      SplitJoined(y, m, '-');
      SplitFree(m, '-');
    case Day => DateParts(p.year, p.month, p.day);
  }

  /** Parsing reverses formatting on valid periods. */
  lemma PeriodRoundTrip(p: Period)
    requires ValidPeriod(p)
    ensures ParsePeriod(FormatPeriod(p)) == Some(p)
  {
    var name, date := GranularityText(p.granularity), PeriodDate(p);
    assert FormatPeriod(p) == name + [':'] + date;
    CutJoined(name, date, ':');
    PeriodParts(p);
    ParsePaddedInt(p.year, 4);
    if p.granularity != Year {
      ParsePaddedInt(p.month, 2);
    }
    if p.granularity == Day {
      ParsePaddedInt(p.day, 2);
    }
    hide Split, Padded, ParseInt, Cut, PeriodDate;
  }

  // Drill-downs -------------------------------------------------------------------------------------------------

  predicate ValidCurrency(code: string) {
    |code| == 3 && forall i :: 0 <= i < 3 ==> 'A' <= code[i] <= 'Z'
  }

  function FormatDrilldown(d: Drilldown): Option<string> {
    var prefix := d.dimension + ":" + d.currency + ":" + Digits(d.scale) + ":";
    if d.dimension == TIME then
      if d.period.Some? && ValidPeriod(d.period.value) then Some(prefix + FormatPeriod(d.period.value)) else None
    else Some(prefix + d.key)
  }

  /** Four parts; the last, the key, may contain separators. */
  function ParseDrilldown(s: string): Option<Drilldown> {
    var (dimension, afterDimension, found) := Cut(s, ':');
    var (currency, afterCurrency, foundCurrency) := Cut(afterDimension, ':');
    var (scaleText, key, foundScale) := Cut(afterCurrency, ':');
    var scale := ParseScale(scaleText);
    if !found || !foundCurrency || !foundScale || dimension == "" || currency == "" || scaleText == "" || key == ""
        || scale.None? then None
    else if dimension == TIME then
      var period := ParsePeriod(key);
      if period.None? then None else Some(Drilldown(dimension, currency, scale.value, "", "", period))
    else Some(Drilldown(dimension, currency, scale.value, key, "", None))
  }

  /** What a durable drill-down satisfies. */
  predicate DurableDrilldown(d: Drilldown) {
    && d.dimension != "" && Free(d.dimension, ':') && ValidCurrency(d.currency) && d.scale <= 255 && d.name == ""
    && if d.dimension == TIME then d.key == "" && d.period.Some? && ValidPeriod(d.period.value)
       else d.key != "" && d.period.None?
  }

  lemma ScaleRoundTrip(scale: nat)
    requires scale <= 255
    ensures ParseScale(Digits(scale)) == Some(scale) && Free(Digits(scale), ':') && Digits(scale) != ""
  {
    ParseDigitsOf(scale);
    DigitsAreFree(Digits(scale), ':');
  }

  lemma CutDrilldown(dimension: string, currency: string, scale: string, last: string)
    requires Free(dimension, ':') && Free(currency, ':') && Free(scale, ':')
    ensures
      var s := dimension + ":" + currency + ":" + scale + ":" + last;
      && Cut(s, ':') == (dimension, currency + ":" + scale + ":" + last, true)
      && Cut(currency + ":" + scale + ":" + last, ':') == (currency, scale + ":" + last, true)
      && Cut(scale + ":" + last, ':') == (scale, last, true)
  {
    assert dimension + ":" + currency + ":" + scale + ":" + last ==
        dimension + [':'] + (currency + ":" + scale + ":" + last);
    CutJoined(dimension, currency + ":" + scale + ":" + last, ':');
    assert currency + ":" + scale + ":" + last == currency + [':'] + (scale + ":" + last);
    CutJoined(currency, scale + ":" + last, ':');
    assert scale + ":" + last == scale + [':'] + last;
    CutJoined(scale, last, ':');
    hide Cut;
  }

  /** Parsing reverses formatting on durable drill-downs, also when the key contains colons. */
  lemma DrilldownRoundTrip(d: Drilldown)
    requires DurableDrilldown(d)
    ensures FormatDrilldown(d).Some? && ParseDrilldown(FormatDrilldown(d).value) == Some(d)
  {
    ScaleRoundTrip(d.scale);
    var last := if d.dimension == TIME then FormatPeriod(d.period.value) else d.key;
    CutDrilldown(d.dimension, d.currency, Digits(d.scale), last);
    if d.dimension == TIME {
      PeriodRoundTrip(d.period.value);
    }
    hide Cut, ParseScale, ParsePeriod, FormatPeriod, Digits, ValidPeriod;
  }

  // Currencies, sorts and anchors -----------------------------------------------------------------------------

  function FormatCurrency(c: CurrencyScope): string {
    c.currency + ":" + Digits(c.scale)
  }

  function ParseCurrency(s: string): Option<CurrencyScope> {
    var (currency, scaleText, found) := Cut(s, ':');
    var scale := ParseScale(scaleText);
    if !found || scale.None? || !ValidCurrency(currency) then None else Some(CurrencyScope(currency, scale.value))
  }

  lemma CurrencyRoundTrip(c: CurrencyScope)
    requires ValidCurrency(c.currency) && c.scale <= 255
    ensures ParseCurrency(FormatCurrency(c)) == Some(c)
  {
    ScaleRoundTrip(c.scale);
    assert FormatCurrency(c) == c.currency + [':'] + Digits(c.scale);
    CutJoined(c.currency, Digits(c.scale), ':');
    hide Cut, ParseScale, Digits;
  }

  function FormatSort(s: SortSpec): string {
    s.field + ":" + s.direction
  }

  function ParseSort(s: string): Option<SortSpec> {
    var (field, direction, found) := Cut(s, ':');
    if !found || Contains(direction, ':') then None else Some(SortSpec(field, direction))
  }

  lemma SortRoundTrip(s: SortSpec)
    requires Free(s.field, ':') && Free(s.direction, ':')
    ensures ParseSort(FormatSort(s)) == Some(s)
  {
    assert FormatSort(s) == s.field + [':'] + s.direction;
    CutJoined(s.field, s.direction, ':');
    hide Cut;
  }

  function FormatAnchor(a: Anchor): string {
    a.mode + ":" + FormatInt(a.depth)
  }

  function ParseAnchor(s: string): Option<Anchor> {
    var (mode, depthText, found) := Cut(s, ':');
    var depth := ParseInt(depthText);
    if !found || depth.None? then None
    else
      var a := Anchor(mode, depth.value);
      if FormatAnchor(a) == s then Some(a) else None
  }

  lemma AnchorRoundTrip(a: Anchor)
    requires Free(a.mode, ':') && -INT_MAX - 1 <= a.depth <= INT_MAX
    ensures ParseAnchor(FormatAnchor(a)) == Some(a)
  {
    assert FormatAnchor(a) == a.mode + [':'] + FormatInt(a.depth);
    CutJoined(a.mode, FormatInt(a.depth), ':');
    ParseFormatted(a.depth);
    hide Cut, ParseInt, FormatInt;
  }
}

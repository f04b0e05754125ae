/** Bookmarks: the durable view state, its validation, and its encoding as query fields. */
module ViewState {
  import opened Wrappers
  import opened Text
  import opened Calendar
  import opened Periods
  import opened ViewCodec

  datatype Analytical = Analytical(
    mode: string, dimension: string, subGrouping: Option<string>, time: string, drilldowns: seq<Drilldown>,
    dates: Option<Range>, search: string, anchor: Option<Anchor>, showHidden: bool, showTransfers: bool,
    currency: Option<CurrencyScope>, sort: SortSpec, timeChosen: bool)

  datatype Frame = Frame(kind: string, state: Analytical)

  datatype View = View(version: nat, current: Analytical, frames: seq<Frame>)

  /** The query fields; any other name is `Unknown`. */
  datatype Field =
    | Version | Mode | Group | Subgroup | Time | From | To | Hidden | Transfers | Search | SearchAt | Sort | Currency
    | Drill | Return | Unknown(name: string)

  type Values = map<Field, seq<string>>

  /** The library's query encoding and parsing, and its UTF-8 test. */
  datatype Library = Library(encode: Values -> string, parse: string -> Option<Values>, utf8: string -> bool)

  datatype ViewError = InvalidView | TooLarge

  const AGGREGATE := "aggregate"
  const DETAIL := "detail"
  const YEAR := "year"
  const SCHEMA_VERSION: nat := 1
  const MAX_QUERY: nat := 65536
  const MAX_SEARCH: nat := 2048
  const MAX_KEY: nat := 512
  const MAX_DRILLDOWNS: nat := 5
  const MAX_RETURNS: nat := 6

  /** What the library promises: parsing reverses encoding of known fields, and no encoding starts with a
  question mark. */
  ghost predicate Faithful(lib: Library) {
    && (forall v: Values :: Filled(v) && KnownFields(v) ==> lib.parse(lib.encode(v)) == Some(v))
    && (forall v: Values :: !StartsWithMark(lib.encode(v)))
  }

  predicate Filled(v: Values) {
    forall f :: f in v ==> v[f] != []
  }

  predicate KnownFields(v: Values) {
    forall f :: f in v ==> !f.Unknown?
  }

  predicate StartsWithMark(s: string) {
    s != "" && s[0] == '?'
  }

  // Validation --------------------------------------------------------------------------------------------

  predicate KnownDimension(d: string) {
    d == "merchant" || d == "category" || d == "group" || d == "account" || d == TIME
  }

  predicate KnownMode(m: string) {
    m == DETAIL || m == AGGREGATE
  }

  predicate KnownDirection(d: string) {
    d == "desc" || d == "asc"
  }

  predicate ValidAggregateSort(dimension: string, field: string) {
    || field == "count" || field == "amount"
    || (field == "merchant" && dimension == "merchant")
    || (field == "category" && dimension == "category")
    || (field == "group" && dimension == "group")
    || (field == "account" && dimension == "account")
    || (field == "time_period" && dimension == TIME)
  }

  predicate ValidDetailSort(field: string) {
    field == "date" || field == "merchant" || field == "category" || field == "account" || field == "amount"
  }

  predicate ValidDrilldowns(ds: seq<Drilldown>) {
    && (forall i :: 0 <= i < |ds| ==> KnownDimension(ds[i].dimension) && DurableDrilldown(ds[i]))
    && (forall i, j :: 0 <= i < j < |ds| ==> ds[i].dimension != ds[j].dimension)
  }

  predicate ValidScope(c: Option<CurrencyScope>, ds: seq<Drilldown>) {
    c.Some? ==>
      && ValidCurrency(c.value.currency) && c.value.scale <= 255
      && forall i :: 0 <= i < |ds| ==> ds[i].currency == c.value.currency && ds[i].scale == c.value.scale
  }

  predicate ValidDates(dates: Option<Range>) {
    dates.Some? ==> ValidRange(dates.value) && AtMost(dates.value.start, dates.value.end)
  }

  predicate ValidSort(s: Analytical) {
    var aggregate := s.subGrouping.Some? || s.mode == AGGREGATE;
    var dimension := if s.subGrouping.Some? then s.subGrouping.value else s.dimension;
    && KnownDirection(s.sort.direction)
    && if aggregate then ValidAggregateSort(dimension, s.sort.field) else ValidDetailSort(s.sort.field)
  }

  predicate ValidAnchor(search: string, anchor: Option<Anchor>) {
    && (search == "" <==> anchor.None?)
    && (anchor.Some? ==> KnownMode(anchor.value.mode) && 0 <= anchor.value.depth <= MAX_DRILLDOWNS)
  }

  /** The mode of a view with a subgroup is not looked at. */
  predicate ValidAnalytical(s: Analytical) {
    && KnownDimension(s.dimension)
    && (s.subGrouping.Some? ==> KnownDimension(s.subGrouping.value))
    && ValidAnchor(s.search, s.anchor)
    && (s.subGrouping.None? ==> KnownMode(s.mode))
    && GranularityOf(s.time).Some?
    && ValidSort(s)
    && ValidDates(s.dates)
    && ValidDrilldowns(s.drilldowns)
    && ValidScope(s.currency, s.drilldowns)
  }

  predicate KnownKind(kind: string) {
    kind == "navigation" || kind == "subgroup"
  }

  predicate ValidView(v: View) {
    && v.version == SCHEMA_VERSION && |v.frames| <= MAX_RETURNS && ValidAnalytical(v.current)
    && forall i :: 0 <= i < |v.frames| ==> KnownKind(v.frames[i].kind) && ValidAnalytical(v.frames[i].state)
  }

  predicate InBounds(s: Analytical, lib: Library) {
    && lib.utf8(s.search) && |s.search| <= MAX_SEARCH && |s.drilldowns| <= MAX_DRILLDOWNS
    && forall i :: 0 <= i < |s.drilldowns| ==> lib.utf8(s.drilldowns[i].key) && |s.drilldowns[i].key| <= MAX_KEY
  }

  predicate ViewInBounds(v: View, lib: Library) {
    && |v.frames| <= MAX_RETURNS && InBounds(v.current, lib)
    && forall i :: 0 <= i < |v.frames| ==> InBounds(v.frames[i].state, lib)
  }

  // Encoding ----------------------------------------------------------------------------------------------

  function DefaultSort(mode: string, dimension: string, subGrouping: Option<string>): SortSpec {
    if subGrouping.Some? then
      if subGrouping.value == TIME then SortSpec("time_period", "asc") else SortSpec("amount", "desc")
    else if mode == DETAIL then SortSpec("date", "desc")
    else if dimension == TIME then SortSpec("time_period", "asc")
    else SortSpec("amount", "desc")
  }

  /** A scoped view stores its granularity only when it was chosen. */
  predicate StoresTime(s: Analytical) {
    if s.currency.Some? then s.timeChosen else s.time != YEAR
  }

  function One(shown: bool, text: string): seq<string> {
    if shown then [text] else []
  }

  /** The entries of one field in the canonical form of a state. */
  function Entry(s: Analytical, drills: seq<string>, f: Field): seq<string>
    requires ValidDates(s.dates)
  {
    match f
    case Mode => One(s.mode != AGGREGATE, s.mode)
    case Group => One(s.dimension != "merchant", s.dimension)
    case Subgroup => if s.subGrouping.Some? then [s.subGrouping.value] else []
    case Time => One(StoresTime(s), s.time)
    case From => if s.dates.Some? then [FormatDate(s.dates.value.start)] else []
    case To => if s.dates.Some? then [FormatDate(s.dates.value.end)] else []
    case Hidden => One(!s.showHidden, "0")
    case Transfers => One(s.showTransfers, "1")
    case Search => One(s.search != "", s.search)
    case SearchAt => if s.anchor.Some? then [FormatAnchor(s.anchor.value)] else []
    case Sort => One(s.sort != DefaultSort(s.mode, s.dimension, s.subGrouping), FormatSort(s.sort))
    case Currency => if s.currency.Some? then [FormatCurrency(s.currency.value)] else []
    case Drill => drills
    case _ => []
  }

  const FIELDS: set<Field> :=
    {Mode, Group, Subgroup, Time, From, To, Hidden, Transfers, Search, SearchAt, Sort, Currency, Drill}

  function Fields(s: Analytical, drills: seq<string>): Values
    requires ValidDates(s.dates)
  {
    map f | f in FIELDS && Entry(s, drills, f) != [] :: Entry(s, drills, f)
  }

  function DrillTexts(ds: seq<Drilldown>): Option<seq<string>> {
    if ds == [] then Some([])
    else
      var before, last := DrillTexts(ds[..|ds| - 1]), FormatDrilldown(ds[|ds| - 1]);
      if before.None? || last.None? then None else Some(before.value + [last.value])
  }

  function Encoded(s: Analytical): Option<Values>
    requires ValidDates(s.dates)
  {
    var drills := DrillTexts(s.drilldowns);
    if drills.None? then None else Some(Fields(s, drills.value))
  }

  function FrameText(frame: Frame, lib: Library): Option<string>
    requires ValidDates(frame.state.dates)
  {
    var values := Encoded(frame.state);
    if values.None? then None else Some(frame.kind + ":" + lib.encode(values.value))
  }

  function FrameTexts(frames: seq<Frame>, lib: Library): Option<seq<string>>
    requires forall i :: 0 <= i < |frames| ==> ValidDates(frames[i].state.dates)
  {
    if frames == [] then Some([])
    else
      var before, last := FrameTexts(frames[..|frames| - 1], lib), FrameText(frames[|frames| - 1], lib);
      if before.None? || last.None? then None else Some(before.value + [last.value])
  }

  /** The fields of a whole view: the version and the return frames join the current state's fields. */
  function ViewValues(values: Values, frames: seq<string>): Values {
    var versioned := values[Version := [Digits(SCHEMA_VERSION)]];
    if frames == [] then versioned else versioned[Return := frames]
  }

  function ViewText(v: View, lib: Library): Option<string>
    requires ValidView(v)
  {
    var values, frames := Encoded(v.current), FrameTexts(v.frames, lib);
    if values.None? || frames.None? then None else Some(lib.encode(ViewValues(values.value, frames.value)))
  }

  function EncodedView(v: View, lib: Library): Result<string, ViewError> {
    if !ValidView(v) then
      if v.version == SCHEMA_VERSION && |v.frames| > MAX_RETURNS then Failure(TooLarge) else Failure(InvalidView)
    else if !ViewInBounds(v, lib) then Failure(TooLarge)
    else
      var text := ViewText(v, lib);
      if text.None? then Failure(InvalidView)
      else if |text.value| > MAX_QUERY then Failure(TooLarge)
      else Success(text.value)
  }

  // Decoding ----------------------------------------------------------------------------------------------

  function Scalar(v: Values, f: Field): Option<string> {
    if f in v && v[f] != [] then Some(v[f][0]) else None
  }

  function OrElse(value: Option<string>, other: string): string {
    if value.Some? then value.value else other
  }

  function FieldFlag(value: Option<string>, other: bool): Option<bool> {
    if value.None? then Some(other)
    else if value.value == "0" then Some(false)
    else if value.value == "1" then Some(true)
    else None
  }

  function FieldDates(v: Values): Option<Option<Range>> {
    var (from, to) := (Scalar(v, From), Scalar(v, To));
    if from.Some? != to.Some? then None
    else if from.None? then Some(None)
    else
      var start, end := ParseDate(from.value), ParseDate(to.value);
      if start.None? || end.None? then None else Some(Some(Range(start.value, end.value)))
  }

  function FieldCurrency(v: Values): Option<Option<CurrencyScope>> {
    var value := Scalar(v, Currency);
    if value.None? then Some(None)
    else
      var scope := ParseCurrency(value.value);
      if scope.None? then None else Some(scope)
  }

  function FieldAnchor(v: Values): Option<Option<Anchor>> {
    var value := Scalar(v, SearchAt);
    if value.None? then Some(None)
    else
      var anchor := ParseAnchor(value.value);
      if anchor.None? then None else Some(anchor)
  }

  function FieldSort(v: Values, other: SortSpec): Option<SortSpec> {
    var value := Scalar(v, Sort);
    if value.None? then Some(other) else ParseSort(value.value)
  }

  function Drills(texts: seq<string>): Option<seq<Drilldown>> {
    if texts == [] then Some([])
    else
      var before, last := Drills(texts[..|texts| - 1]), ParseDrilldown(texts[|texts| - 1]);
      if before.None? || last.None? then None else Some(before.value + [last.value])
  }

  function All(v: Values, f: Field): seq<string> {
    if f in v then v[f] else []
  }

  function Decoded(v: Values): Option<Analytical> {
    var mode, dimension, subGrouping := OrElse(Scalar(v, Mode), AGGREGATE), OrElse(Scalar(v, Group), "merchant"),
        Scalar(v, Subgroup);
    var dates, currency, anchor := FieldDates(v), FieldCurrency(v), FieldAnchor(v);
    var hidden, transfers := FieldFlag(Scalar(v, Hidden), true), FieldFlag(Scalar(v, Transfers), false);
    var sort, drills := FieldSort(v, DefaultSort(mode, dimension, subGrouping)), Drills(All(v, Drill));
    if dates.None? || currency.None? || anchor.None? || hidden.None? || transfers.None? || sort.None? || drills.None?
    then None
    else Some(Analytical(
                mode, dimension, subGrouping, OrElse(Scalar(v, Time), YEAR), drills.value, dates.value,
                OrElse(Scalar(v, Search), ""), anchor.value, hidden.value, transfers.value, currency.value, sort.value,
                Scalar(v, Time).Some? && currency.value.Some?))
  }

  /** Each field is known, allowed where it stands, and appears as often as it may. */
  predicate FieldAllowed(f: Field, count: nat, topLevel: bool) {
    match f
    case Return => topLevel && count <= MAX_RETURNS
    case Drill => count <= MAX_DRILLDOWNS
    case Version => topLevel && count == 1
    case Unknown(_) => false
    case _ => count == 1
  }

  predicate FieldsAllowed(v: Values, topLevel: bool) {
    forall f :: f in v ==> FieldAllowed(f, |v[f]|, topLevel)
  }

  function ReadFrame(text: string, lib: Library): Option<Frame> {
    var (kind, query, found) := Cut(text, ':');
    if !found || !KnownKind(kind) then None
    else
      var values := lib.parse(query);
      if values.None? || !FieldsAllowed(values.value, false) then None
      else
        var state := Decoded(values.value);
        if state.None? then None else Some(Frame(kind, state.value))
  }

  function ReadFrames(texts: seq<string>, lib: Library): Option<seq<Frame>> {
    if texts == [] then Some([])
    else
      var before, last := ReadFrames(texts[..|texts| - 1], lib), ReadFrame(texts[|texts| - 1], lib);
      if before.None? || last.None? then None else Some(before.value + [last.value])
  }

  function ReadView(v: Values, lib: Library): Option<View> {
    if !FieldsAllowed(v, true)
        || (Scalar(v, Version).Some? && Scalar(v, Version).value != Digits(SCHEMA_VERSION)) then None
    else
      var current, frames := Decoded(v), ReadFrames(All(v, Return), lib);
      if current.None? || frames.None? then None
      else
        var view := View(SCHEMA_VERSION, current.value, frames.value);
        if ValidView(view) && ViewInBounds(view, lib) then Some(view) else None
  }

  /** The view a bookmark stands for, and its canonical form. */
  function DecodedView(raw: string, lib: Library): Result<(View, string), ViewError> {
    if StartsWithMark(raw) || |raw| > MAX_QUERY then Failure(InvalidView)
    else
      var values := lib.parse(raw);
      if values.None? || (raw != "" && Scalar(values.value, Version).None?) then Failure(InvalidView)
      else
        var view := ReadView(values.value, lib);
        if view.None? then Failure(InvalidView)
        else
          var text := ViewText(view.value, lib);
          if text.None? || |text.value| > MAX_QUERY then Failure(InvalidView) else Success((view.value, text.value))
  }

  // The operations ----------------------------------------------------------------------------------------

  lemma {:induction false} DrillPrefixFails(ds: seq<Drilldown>, k: nat)
    requires k <= |ds| && DrillTexts(ds[..k]).None?
    ensures DrillTexts(ds).None?
    decreases |ds| - k
  {
    if k == |ds| {
      assert ds[..k] == ds;
    } else {
      assert ds[..k + 1][..k] == ds[..k];
      DrillPrefixFails(ds, k + 1);
    }
  }

  lemma DrillNext(ds: seq<Drilldown>, k: nat)
    requires k < |ds| && DrillTexts(ds[..k]).Some?
    ensures DrillTexts(ds[..k + 1]) ==
            if FormatDrilldown(ds[k]).None? then None
                else Some(DrillTexts(ds[..k]).value + [FormatDrilldown(ds[k]).value])
  {
    assert ds[..k + 1][..k] == ds[..k];
    hide FormatDrilldown;
  }

  method EncodeDrilldowns(ds: seq<Drilldown>, values: Values) returns (r: Option<Values>)
    requires Drill !in values
    ensures r == if DrillTexts(ds).None? then None
                 else Some(if ds == [] then values else values[Drill := DrillTexts(ds).value])
  {
    hide FormatDrilldown;
    var result := values;
    ghost var drills: seq<string> := [];
    for i := 0 to |ds|
      invariant DrillTexts(ds[..i]) == Some(drills) && |drills| == i
      invariant result == if i == 0 then values else values[Drill := drills]
    {
      DrillNext(ds, i);
      var text := FormatDrilldown(ds[i]);
      if text.None? {
        DrillPrefixFails(ds, i + 1);
        return None;
      }
      result := result[Drill := All(result, Drill) + [text.value]];
      drills := drills + [text.value];
    }
    assert ds[..|ds|] == ds;
    return Some(result);
  }

  lemma TextPerDrilldown(ds: seq<Drilldown>)
    requires DrillTexts(ds).Some?
    ensures |DrillTexts(ds).value| == |ds|
  {
    hide FormatDrilldown;
    if ds != [] {
      TextPerDrilldown(ds[..|ds| - 1]);
    }
  }

  // The fields in the order in which encoding sets them.
  function FieldAt(n: nat): Field
    requires n < 13
  {
    match n
    case 0 => Mode
    case 1 => Group
    case 2 => Subgroup
    case 3 => Time
    case 4 => From
    case 5 => To
    case 6 => Hidden
    case 7 => Transfers
    case 8 => Currency
    case 9 => Search
    case 10 => SearchAt
    case 11 => Drill
    case _ => Sort
  }

  function Put(values: Values, f: Field, entries: seq<string>): Values {
    if entries == [] then values else values[f := entries]
  }

  function FirstFields(s: Analytical, drills: seq<string>, n: nat): Values
    requires ValidDates(s.dates) && n <= 13
  {
    if n == 0 then map[] else Put(FirstFields(s, drills, n - 1), FieldAt(n - 1), Entry(s, drills, FieldAt(n - 1)))
  }

  predicate Stands(f: Field, n: nat)
    requires n <= 13
  {
    exists k :: 0 <= k < n && FieldAt(k) == f
  }

  lemma {:induction false} FirstFieldsHold(s: Analytical, drills: seq<string>, n: nat)
    requires ValidDates(s.dates) && n <= 13
    ensures forall f :: f in FirstFields(s, drills, n) <==> Stands(f, n) && Entry(s, drills, f) != []
    ensures forall f :: f in FirstFields(s, drills, n) ==> FirstFields(s, drills, n)[f] == Entry(s, drills, f)
  {
    hide Entry, ValidDates, FieldAt;
    if n > 0 {
      FirstFieldsHold(s, drills, n - 1);
      assert forall f :: Stands(f, n) <==> Stands(f, n - 1) || f == FieldAt(n - 1);
    }
  }

  lemma EveryFieldStands(f: Field)
    ensures Stands(f, 13) <==> f in FIELDS
  {
    assert FieldAt(0) == Mode && FieldAt(1) == Group && FieldAt(2) == Subgroup && FieldAt(3) == Time
        && FieldAt(4) == From;
    assert FieldAt(5) == To && FieldAt(6) == Hidden && FieldAt(7) == Transfers && FieldAt(8) == Currency;
    assert FieldAt(9) == Search && FieldAt(10) == SearchAt && FieldAt(11) == Drill && FieldAt(12) == Sort;
  }

  lemma AllFields(s: Analytical, drills: seq<string>)
    requires ValidDates(s.dates)
    ensures FirstFields(s, drills, 13) == Fields(s, drills)
  {
    hide Entry, ValidDates, FirstFields, Stands, FIELDS;
    FirstFieldsHold(s, drills, 13);
    forall f
      ensures Stands(f, 13) <==> f in FIELDS
    {
      EveryFieldStands(f);
    }
  }

  // One conditional assignment of the encoder.
  lemma NextField(s: Analytical, drills: seq<string>, n: nat, f: Field, shown: bool, text: string)
    requires ValidDates(s.dates) && n < 13 && f == FieldAt(n)
    requires Entry(s, drills, f) == One(shown, text)
    ensures FirstFields(s, drills, n + 1) ==
            if shown then FirstFields(s, drills, n)[f := [text]] else FirstFields(s, drills, n)
  {
    hide Entry, FieldAt;
  }

  lemma NoFieldYet(s: Analytical, drills: seq<string>)
    requires ValidDates(s.dates)
    ensures FirstFields(s, drills, 0) == map[] && Drill !in FirstFields(s, drills, 11)
  {
    hide Entry, ValidDates;
    FirstFieldsHold(s, drills, 11);
    assert !Stands(Drill, 11) by { hide FirstFields; }
    hide Stands;
  }

  lemma DateFields(s: Analytical, drills: seq<string>)
    requires ValidDates(s.dates)
    ensures FirstFields(s, drills, 6) ==
            var before := FirstFields(s, drills, 4);
            if s.dates.None? then before
            else before[From := [FormatDate(s.dates.value.start)]][To := [FormatDate(s.dates.value.end)]]
  {
    hide FormatDate, Valid;
    assert FieldAt(4) == From && FieldAt(5) == To;
    assert FirstFields(s, drills, 6) == Put(FirstFields(s, drills, 5), To, Entry(s, drills, To));
    assert FirstFields(s, drills, 5) == Put(FirstFields(s, drills, 4), From, Entry(s, drills, From));
  }

  lemma DrillField(s: Analytical, drills: seq<string>)
    requires ValidDates(s.dates)
    ensures FirstFields(s, drills, 12) == if drills == [] then FirstFields(s, drills, 11)
        else FirstFields(s, drills, 11)[Drill := drills]
  {
    assert FieldAt(11) == Drill;
  }

  lemma NameFields(s: Analytical, drills: seq<string>)
    requires ValidDates(s.dates)
    ensures FirstFields(s, drills, 1) == if s.mode != AGGREGATE then FirstFields(s, drills, 0)[Mode := [s.mode]]
        else FirstFields(s, drills, 0)
    ensures FirstFields(s, drills, 2) == if s.dimension != "merchant"
        then FirstFields(s, drills, 1)[Group := [s.dimension]] else FirstFields(s, drills, 1)
    ensures FirstFields(s, drills, 3) == if s.subGrouping.Some?
        then FirstFields(s, drills, 2)[Subgroup := [s.subGrouping.value]] else FirstFields(s, drills, 2)
    ensures FirstFields(s, drills, 4) == if StoresTime(s) then FirstFields(s, drills, 3)[Time := [s.time]]
        else FirstFields(s, drills, 3)
  {
    hide FormatAnchor, FormatCurrency, FormatDate, FormatSort, DefaultSort, Valid, StoresTime, FirstFields;
    NextField(s, drills, 0, Mode, s.mode != AGGREGATE, s.mode);
    NextField(s, drills, 1, Group, s.dimension != "merchant", s.dimension);
    NextField(s, drills, 2, Subgroup, s.subGrouping.Some?, if s.subGrouping.Some? then s.subGrouping.value else "");
    NextField(s, drills, 3, Time, StoresTime(s), s.time);
  }

  lemma FlagFields(s: Analytical, drills: seq<string>)
    requires ValidDates(s.dates)
    ensures FirstFields(s, drills, 7) == if !s.showHidden then FirstFields(s, drills, 6)[Hidden := ["0"]]
        else FirstFields(s, drills, 6)
    ensures FirstFields(s, drills, 8) == if s.showTransfers then FirstFields(s, drills, 7)[Transfers := ["1"]]
        else FirstFields(s, drills, 7)
    ensures FirstFields(s, drills, 9) == if s.currency.Some?
        then FirstFields(s, drills, 8)[Currency := [FormatCurrency(s.currency.value)]] else FirstFields(s, drills, 8)
    ensures FirstFields(s, drills, 10) == if s.search != "" then FirstFields(s, drills, 9)[Search := [s.search]]
        else FirstFields(s, drills, 9)
    ensures FirstFields(s, drills, 11) == if s.anchor.Some?
        then FirstFields(s, drills, 10)[SearchAt := [FormatAnchor(s.anchor.value)]] else FirstFields(s, drills, 10)
  {
    hide FormatAnchor, FormatCurrency, FormatDate, FormatSort, DefaultSort, Valid, StoresTime, FirstFields;
    NextField(s, drills, 6, Hidden, !s.showHidden, "0");
    NextField(s, drills, 7, Transfers, s.showTransfers, "1");
    NextField(s, drills, 8, Currency, s.currency.Some?, if s.currency.Some? then FormatCurrency(s.currency.value)
        else "");
    NextField(s, drills, 9, Search, s.search != "", s.search);
    NextField(s, drills, 10, SearchAt, s.anchor.Some?, if s.anchor.Some? then FormatAnchor(s.anchor.value) else "");
  }

  lemma SortField(s: Analytical, drills: seq<string>)
    requires ValidDates(s.dates)
    ensures FirstFields(s, drills, 13) ==
            if s.sort != DefaultSort(s.mode, s.dimension, s.subGrouping)
                then FirstFields(s, drills, 12)[Sort := [FormatSort(s.sort)]]
            else FirstFields(s, drills, 12)
  {
    NextField(s, drills, 12, Sort, s.sort != DefaultSort(s.mode, s.dimension, s.subGrouping), FormatSort(s.sort));
  }

  method EncodeAnalytical(s: Analytical) returns (r: Option<Values>)
    requires ValidDates(s.dates)
    ensures r == Encoded(s)
  {
    hide FormatDrilldown, FormatAnchor, FormatCurrency, FormatDate, FormatSort, DefaultSort, Valid, StoresTime,
         DrillTexts, FirstFields, Fields, FIELDS;
    ghost var drills := if DrillTexts(s.drilldowns).Some? then DrillTexts(s.drilldowns).value else [];
    NoFieldYet(s, drills);
    NameFields(s, drills);
    DateFields(s, drills);
    FlagFields(s, drills);
    DrillField(s, drills);
    SortField(s, drills);
    var values: Values := map[];
    if s.mode != AGGREGATE {
      values := values[Mode := [s.mode]];
    }
    assert values == FirstFields(s, drills, 1);
    if s.dimension != "merchant" {
      values := values[Group := [s.dimension]];
    }
    assert values == FirstFields(s, drills, 2);
    if s.subGrouping.Some? {
      values := values[Subgroup := [s.subGrouping.value]];
    }
    assert values == FirstFields(s, drills, 3);
    if StoresTime(s) {
      values := values[Time := [s.time]];
    }
    assert values == FirstFields(s, drills, 4);
    if s.dates.Some? {
      values := values[From := [FormatDate(s.dates.value.start)]];
      values := values[To := [FormatDate(s.dates.value.end)]];
    }
    assert values == FirstFields(s, drills, 6);
    if !s.showHidden {
      values := values[Hidden := ["0"]];
    }
    assert values == FirstFields(s, drills, 7);
    if s.showTransfers {
      values := values[Transfers := ["1"]];
    }
    assert values == FirstFields(s, drills, 8);
    if s.currency.Some? {
      values := values[Currency := [FormatCurrency(s.currency.value)]];
    }
    assert values == FirstFields(s, drills, 9);
    if s.search != "" {
      values := values[Search := [s.search]];
    }
    assert values == FirstFields(s, drills, 10);
    if s.anchor.Some? {
      values := values[SearchAt := [FormatAnchor(s.anchor.value)]];
    }
    assert values == FirstFields(s, drills, 11);
    var drilled := EncodeDrilldowns(s.drilldowns, values);
    if drilled.None? {
      return None;
    }
    values := drilled.value;
    TextPerDrilldown(s.drilldowns);
    var standard := DefaultSort(s.mode, s.dimension, s.subGrouping);
    if s.sort != standard {
      values := values[Sort := [FormatSort(s.sort)]];
    }
    AllFields(s, drills);
    return Some(values);
  }

  lemma {:induction false} DrillsPrefixFails(texts: seq<string>, k: nat)
    requires k <= |texts| && Drills(texts[..k]).None?
    ensures Drills(texts).None?
    decreases |texts| - k
  {
    hide ParseDrilldown;
    if k == |texts| {
      assert texts[..k] == texts;
    } else {
      assert texts[..k + 1][..k] == texts[..k];
      DrillsPrefixFails(texts, k + 1);
    }
  }

  method DecodeDrilldowns(texts: seq<string>) returns (r: Option<seq<Drilldown>>)
    ensures r == Drills(texts)
  {
    hide ParseDrilldown;
    var ds: seq<Drilldown> := [];
    for i := 0 to |texts|
      invariant Drills(texts[..i]) == Some(ds)
    {
      assert texts[..i + 1][..i] == texts[..i];
      var d := ParseDrilldown(texts[i]);
      if d.None? {
        DrillsPrefixFails(texts, i + 1);
        return None;
      }
      ds := ds + [d.value];
    }
    assert texts[..|texts|] == texts;
    return Some(ds);
  }

  method DecodeDates(v: Values) returns (r: Option<Option<Range>>)
    ensures r == FieldDates(v)
  {
    hide ParseDate;
    if Scalar(v, From).Some? != Scalar(v, To).Some? {
      return None;
    }
    if Scalar(v, From).None? {
      return Some(None);
    }
    var start := ParseDate(Scalar(v, From).value);
    if start.None? {
      return None;
    }
    var end := ParseDate(Scalar(v, To).value);
    if end.None? {
      return None;
    }
    return Some(Some(Range(start.value, end.value)));
  }

  method DecodeAnalytical(v: Values) returns (r: Option<Analytical>)
    ensures r == Decoded(v)
  {
    hide FieldDates, FieldCurrency, FieldAnchor, FieldFlag, FieldSort, Drills, DefaultSort, Scalar, All;
    var mode, dimension, time, search := AGGREGATE, "merchant", YEAR, "";
    if Scalar(v, Mode).Some? {
      mode := Scalar(v, Mode).value;
    }
    assert mode == OrElse(Scalar(v, Mode), AGGREGATE);
    if Scalar(v, Group).Some? {
      dimension := Scalar(v, Group).value;
    }
    assert dimension == OrElse(Scalar(v, Group), "merchant");
    var subGrouping := Scalar(v, Subgroup);
    if Scalar(v, Time).Some? {
      time := Scalar(v, Time).value;
    }
    assert time == OrElse(Scalar(v, Time), YEAR);
    var dates := DecodeDates(v);
    if dates.None? {
      return None;
    }
    var hidden := FieldFlag(Scalar(v, Hidden), true);
    if hidden.None? {
      return None;
    }
    var transfers := FieldFlag(Scalar(v, Transfers), false);
    if transfers.None? {
      return None;
    }
    var currency := FieldCurrency(v);
    if currency.None? {
      return None;
    }
    var timeChosen := Scalar(v, Time).Some? && currency.value.Some?;
    if Scalar(v, Search).Some? {
      search := Scalar(v, Search).value;
    }
    assert search == OrElse(Scalar(v, Search), "");
    var anchor := FieldAnchor(v);
    if anchor.None? {
      return None;
    }
    var drills := DecodeDrilldowns(All(v, Drill));
    if drills.None? {
      return None;
    }
    var sort := FieldSort(v, DefaultSort(mode, dimension, subGrouping));
    if sort.None? {
      return None;
    }
    hide OrElse;
    return Some(Analytical(mode, dimension, subGrouping, time, drills.value, dates.value, search, anchor.value,
                           hidden.value, transfers.value, currency.value, sort.value, timeChosen));
  }

  predicate FramesDated(frames: seq<Frame>) {
    forall i :: 0 <= i < |frames| ==> ValidDates(frames[i].state.dates)
  }

  lemma {:induction false} FramePrefixFails(frames: seq<Frame>, lib: Library, k: nat)
    requires FramesDated(frames) && k <= |frames| && FrameTexts(frames[..k], lib).None?
    ensures FrameTexts(frames, lib).None?
    decreases |frames| - k
  {
    hide FrameText;
    if k == |frames| {
      assert frames[..k] == frames;
    } else {
      assert frames[..k + 1][..k] == frames[..k];
      FramePrefixFails(frames, lib, k + 1);
    }
  }

  method EncodeFrame(frame: Frame, lib: Library) returns (r: Option<string>)
    requires ValidDates(frame.state.dates)
    ensures r == FrameText(frame, lib)
  {
    hide Encoded, ValidDates;
    var values := EncodeAnalytical(frame.state);
    if values.None? {
      return None;
    }
    return Some(frame.kind + ":" + lib.encode(values.value));
  }

  method EncodeViewState(view: View, lib: Library) returns (r: Option<string>)
    requires ValidView(view)
    ensures r == ViewText(view, lib)
  {
    hide Encoded, ValidAnalytical, FrameText, ValidDates;
    assert FramesDated(view.frames) && ValidDates(view.current.dates) by {
      DatesOfView(view);
    }
    var values := EncodeAnalytical(view.current);
    if values.None? {
      return None;
    }
    var all := values.value[Version := [Digits(SCHEMA_VERSION)]];
    ghost var base := all;
    ghost var texts: seq<string> := [];
    for i := 0 to |view.frames|
      invariant FrameTexts(view.frames[..i], lib) == Some(texts)
      invariant |texts| == i && (Return !in base ==> all == if i == 0 then base else base[Return := texts])
    {
      assert view.frames[..i + 1][..i] == view.frames[..i];
      var frame := view.frames[i];
      var text := EncodeFrame(frame, lib);
      if text.None? {
        FramePrefixFails(view.frames, lib, i + 1);
        return None;
      }
      all := all[Return := All(all, Return) + [text.value]];
      texts := texts + [text.value];
    }
    assert view.frames[..|view.frames|] == view.frames;
    assert Return !in base by {
      NoReturnField(view.current);
    }
    return Some(lib.encode(all));
  }

  lemma DatesOfView(view: View)
    requires ValidView(view)
    ensures FramesDated(view.frames) && ValidDates(view.current.dates)
  {
  }

  lemma NoReturnField(s: Analytical)
    requires ValidDates(s.dates) && Encoded(s).Some?
    ensures Return !in Encoded(s).value && Version !in Encoded(s).value
  {
    hide Entry, DrillTexts;
  }

  lemma {:induction false} ReadPrefixFails(texts: seq<string>, lib: Library, k: nat)
    requires k <= |texts| && ReadFrames(texts[..k], lib).None?
    ensures ReadFrames(texts, lib).None?
    decreases |texts| - k
  {
    hide ReadFrame;
    if k == |texts| {
      assert texts[..k] == texts;
    } else {
      assert texts[..k + 1][..k] == texts[..k];
      ReadPrefixFails(texts, lib, k + 1);
    }
  }

  method DecodeFrame(text: string, lib: Library) returns (r: Option<Frame>)
    ensures r == ReadFrame(text, lib)
  {
    hide Cut, Decoded, FieldsAllowed;
    var (kind, query, found) := Cut(text, ':');
    if !found || !KnownKind(kind) {
      return None;
    }
    var values := lib.parse(query);
    if values.None? || !FieldsAllowed(values.value, false) {
      return None;
    }
    var state := DecodeAnalytical(values.value);
    if state.None? {
      return None;
    }
    return Some(Frame(kind, state.value));
  }

  method DecodeTopLevel(v: Values, lib: Library) returns (r: Option<View>)
    ensures r == ReadView(v, lib)
  {
    hide Decoded, ReadFrame, FieldsAllowed, ValidView, ViewInBounds;
    if !FieldsAllowed(v, true) {
      return None;
    }
    if Scalar(v, Version).Some? && Scalar(v, Version).value != Digits(SCHEMA_VERSION) {
      return None;
    }
    var current := DecodeAnalytical(v);
    if current.None? {
      return None;
    }
    var texts := All(v, Return);
    var frames: seq<Frame> := [];
    for i := 0 to |texts|
      invariant ReadFrames(texts[..i], lib) == Some(frames)
    {
      assert texts[..i + 1][..i] == texts[..i];
      var frame := DecodeFrame(texts[i], lib);
      if frame.None? {
        ReadPrefixFails(texts, lib, i + 1);
        return None;
      }
      frames := frames + [frame.value];
    }
    assert texts[..|texts|] == texts;
    var view := View(SCHEMA_VERSION, current.value, frames);
    if !ValidView(view) || !ViewInBounds(view, lib) {
      return None;
    }
    return Some(view);
  }

  /** Reads an untrusted bookmark, and returns the state with its canonical form. */
  method DecodeViewQuery(raw: string, lib: Library) returns (r: Result<(View, string), ViewError>)
    ensures r == DecodedView(raw, lib)
  {
    hide Decoded, ReadFrames, FieldsAllowed, ViewInBounds, ViewText, ValidView;
    if StartsWithMark(raw) || |raw| > MAX_QUERY {
      return Failure(InvalidView);
    }
    var values := lib.parse(raw);
    if values.None? || (raw != "" && Scalar(values.value, Version).None?) {
      return Failure(InvalidView);
    }
    var view := DecodeTopLevel(values.value, lib);
    if view.None? {
      return Failure(InvalidView);
    }
    var canonical := EncodeViewState(view.value, lib);
    if canonical.None? || |canonical.value| > MAX_QUERY {
      return Failure(InvalidView);
    }
    return Success((view.value, canonical.value));
  }

  /** Writes the canonical bookmark of a state. */
  method EncodeViewQuery(v: View, lib: Library) returns (r: Result<string, ViewError>)
    ensures r == EncodedView(v, lib)
  {
    hide ViewInBounds, ViewText, ValidView;
    if !ValidView(v) {
      return Failure(if v.version == SCHEMA_VERSION && |v.frames| > MAX_RETURNS then TooLarge else InvalidView);
    }
    if !ViewInBounds(v, lib) {
      return Failure(TooLarge);
    }
    var encoded := EncodeViewState(v, lib);
    if encoded.None? {
      return Failure(InvalidView);
    }
    if |encoded.value| > MAX_QUERY {
      return Failure(TooLarge);
    }
    return Success(encoded.value);
  }
}

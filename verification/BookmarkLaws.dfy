/** What bookmarks say: the fields of published examples, what each field means to the decoder, and what holds of
every state that a bookmark is read as. */
module BookmarkLaws {
  import opened Wrappers
  import opened Text
  import opened Calendar
  import opened Periods
  import opened ViewCodec
  import opened ViewState

  // Published examples ----------------------------------------------------------------------------------------

  const DEFAULT := Analytical(
    "aggregate", "merchant", None, "year", [], None, "", None, true, false, None, SortSpec("amount", "desc"), false)

  const DETAILED := DEFAULT.(mode := "detail", sort := SortSpec("date", "desc"))

  const GROCER := Drilldown("merchant", "USD", 2, "merchant-grocer", "", None)
  const COLON := Drilldown("merchant", "USD", 2, "merchant:grocer", "", None)
  const GROCERY := Drilldown("category", "USD", 2, "category-grocery", "", None)
  const FEBRUARY := Drilldown("time", "USD", 2, "", "", Some(Period(Month, 2024, 2, 0)))

  /** The fields that a state without return frames is written as, version included. */
  function Written(s: Analytical): Option<Values>
    requires ValidDates(s.dates)
  {
    var values := Encoded(s);
    if values.None? then None else Some(ViewValues(values.value, []))
  }

  /** The fields of a bookmark with its version. */
  function Versioned(values: Values): Values {
    values[Version := ["1"]]
  }

  lemma NoDrills()
    ensures DrillTexts([]) == Some([])
  {
  }

  lemma OneDrill(d: Drilldown, text: string)
    requires FormatDrilldown(d) == Some(text)
    ensures DrillTexts([d]) == Some([text])
  {
    NoDrills();
    hide FormatDrilldown;
    var ds := [d];
    assert ds[..|ds| - 1] == [] && ds[|ds| - 1] == d;
    assert DrillTexts(ds[..|ds| - 1]) == Some([]);
    var none: seq<string> := [];
    assert none + [text] == [text];
  }

  lemma TwoDrills(d: Drilldown, e: Drilldown, text: string, other: string)
    requires FormatDrilldown(d) == Some(text) && FormatDrilldown(e) == Some(other)
    ensures DrillTexts([d, e]) == Some([text, other])
  {
    OneDrill(d, text);
    hide FormatDrilldown;
    var ds := [d, e];
    assert ds[..|ds| - 1] == [d] && ds[|ds| - 1] == e;
    assert DrillTexts(ds[..|ds| - 1]) == Some([text]);
    assert [text] + [other] == [text, other];
  }

  lemma TwoDigits()
    ensures Digits(0) == "0" && Digits(1) == "1" && Digits(2) == "2" && Digits(12) == "12" && Digits(31) == "31"
  {
    assert Digits(3) == "3";
    assert Digits(12) == Digits(1) + "2" && Digits(31) == Digits(3) + "1";
  }

  lemma FourDigits()
    ensures Digits(2024) == "2024"
  {
    assert Digits(2) == "2";
    assert Digits(20) == Digits(2) + "0";
    assert Digits(202) == Digits(20) + "2";
    assert Digits(2024) == Digits(202) + "4";
  }

  lemma SmallNumbers()
    ensures Digits(0) == "0" && Digits(1) == "1" && Digits(2) == "2"
    ensures Padded(1, 2) == "01" && Padded(2, 2) == "02" && Padded(12, 2) == "12" && Padded(31, 2) == "31"
    ensures Padded(2024, 4) == "2024"
  {
    TwoDigits();
    FourDigits();
    hide Digits;
    assert seq(1, i => '0') == "0";
  }

  lemma PublishedTexts()
    ensures FormatDate(Date(2024, 1, 1)) == "2024-01-01" && FormatDate(Date(2024, 12, 31)) == "2024-12-31"
    ensures FormatCurrency(CurrencyScope("EUR", 2)) == "EUR:2"
    ensures FormatAnchor(Anchor("aggregate", 0)) == "aggregate:0" && FormatAnchor(Anchor("detail", 1)) == "detail:1"
    ensures FormatSort(SortSpec("amount", "asc")) == "amount:asc"
  {
    SmallNumbers();
    hide Digits, Padded;
  }

  lemma PublishedMerchant()
    ensures FormatDrilldown(GROCER) == Some("merchant:USD:2:merchant-grocer")
  {
    SmallNumbers();
    hide Digits, Padded;
    assert "merchant" + ":" + "USD" + ":" + "2" + ":" + "merchant-grocer" == "merchant:USD:2:merchant-grocer";
  }

  lemma PublishedColon()
    ensures FormatDrilldown(COLON) == Some("merchant:USD:2:merchant:grocer")
  {
    SmallNumbers();
    hide Digits, Padded;
    assert "merchant" + ":" + "USD" + ":" + "2" + ":" + "merchant:grocer" == "merchant:USD:2:merchant:grocer";
  }

  lemma PublishedCategory()
    ensures FormatDrilldown(GROCERY) == Some("category:USD:2:category-grocery")
  {
    SmallNumbers();
    hide Digits, Padded;
    assert "category" + ":" + "USD" + ":" + "2" + ":" + "category-grocery" == "category:USD:2:category-grocery";
  }

  lemma PublishedMonth()
    ensures FormatDrilldown(FEBRUARY) == Some("time:USD:2:month:2024-02")
  {
    SmallNumbers();
    hide Digits, Padded;
    assert FormatPeriod(Period(Month, 2024, 2, 0)) == "month:2024-02";
    assert "time" + ":" + "USD" + ":" + "2" + ":" + "month:2024-02" == "time:USD:2:month:2024-02";
  }

  /** The texts inside the published examples. */
  lemma PublishedFormats()
    ensures FormatDate(Date(2024, 1, 1)) == "2024-01-01" && FormatDate(Date(2024, 12, 31)) == "2024-12-31"
    ensures FormatDrilldown(GROCER) == Some("merchant:USD:2:merchant-grocer")
    ensures FormatDrilldown(COLON) == Some("merchant:USD:2:merchant:grocer")
    ensures FormatDrilldown(GROCERY) == Some("category:USD:2:category-grocery")
    ensures FormatDrilldown(FEBRUARY) == Some("time:USD:2:month:2024-02")
    ensures FormatCurrency(CurrencyScope("EUR", 2)) == "EUR:2"
    ensures FormatAnchor(Anchor("aggregate", 0)) == "aggregate:0" && FormatAnchor(Anchor("detail", 1)) == "detail:1"
    ensures FormatSort(SortSpec("amount", "asc")) == "amount:asc"
  {
    PublishedTexts();
    PublishedMerchant();
    PublishedColon();
    PublishedCategory();
    PublishedMonth();
    hide *;
  }

  lemma PublishedDefault()
    ensures Written(DEFAULT) == Some(Versioned(map[]))
  {
    NoDrills();
    PublishedFormats();
    hide DrillTexts, FormatDate, FormatDrilldown, FormatCurrency, FormatAnchor, FormatSort, Digits, Padded;
    FieldsOf(DEFAULT, [], map[]);
    hide Fields;
  }

  lemma PublishedGroup()
    ensures Written(DEFAULT.(dimension := "category")) == Some(Versioned(map[Group := ["category"]]))
  {
    NoDrills();
    PublishedFormats();
    hide DrillTexts, FormatDate, FormatDrilldown, FormatCurrency, FormatAnchor, FormatSort, Digits, Padded;
    FieldsOf(DEFAULT.(dimension := "category"), [], map[Group := ["category"]]);
    hide Fields;
  }

  lemma PublishedCurrency()
    ensures Written(DEFAULT.(currency := Some(CurrencyScope("EUR", 2)))) ==
            Some(Versioned(map[Currency := ["EUR:2"]]))
  {
    NoDrills();
    PublishedFormats();
    hide DrillTexts, FormatDate, FormatDrilldown, FormatCurrency, FormatAnchor, FormatSort, Digits, Padded;
    FieldsOf(DEFAULT.(currency := Some(CurrencyScope("EUR", 2))), [], map[Currency := ["EUR:2"]]);
    hide Fields;
  }

  lemma PublishedFilters()
    ensures
      var year := Range(Date(2024, 1, 1), Date(2024, 12, 31));
      ValidDates(Some(year)) &&
      Written(DEFAULT.(dates := Some(year), showHidden := false, showTransfers := true)) ==
      Some(Versioned(map[From := ["2024-01-01"], To := ["2024-12-31"], Hidden := ["0"], Transfers := ["1"]]))
  {
    NoDrills();
    SmallNumbers();
    PublishedFormats();
    hide DrillTexts, FormatDate, FormatDrilldown, FormatCurrency, FormatAnchor, FormatSort, Digits, Padded;
    var year := Range(Date(2024, 1, 1), Date(2024, 12, 31));
    FieldsOf(DEFAULT.(dates := Some(year), showHidden := false, showTransfers := true), [],
             map[From := ["2024-01-01"], To := ["2024-12-31"], Hidden := ["0"], Transfers := ["1"]]);
    hide Fields;
  }

  lemma PublishedSearch()
    ensures Written(DEFAULT.(search := "milk", anchor := Some(Anchor("aggregate", 0)))) ==
            Some(Versioned(map[Search := ["milk"], SearchAt := ["aggregate:0"]]))
  {
    NoDrills();
    SmallNumbers();
    PublishedFormats();
    hide DrillTexts, FormatDate, FormatDrilldown, FormatCurrency, FormatAnchor, FormatSort, Digits, Padded;
    FieldsOf(DEFAULT.(search := "milk", anchor := Some(Anchor("aggregate", 0))), [],
             map[Search := ["milk"], SearchAt := ["aggregate:0"]]);
    hide Fields;
  }

  lemma PublishedDrills(s: Analytical, drills: seq<string>)
    requires s.mode == "detail" && s.sort == SortSpec("date", "desc") && DrillTexts(s.drilldowns) == Some(drills)
    requires s == DETAILED.(dimension := s.dimension, drilldowns := s.drilldowns) && drills != []
    ensures s.dimension == "merchant" ==> Written(s) == Some(Versioned(map[Mode := ["detail"], Drill := drills]))
    ensures s.dimension != "merchant" ==>
      Written(s) == Some(Versioned(map[Mode := ["detail"], Group := [s.dimension], Drill := drills]))
  {
    SmallNumbers();
    hide DrillTexts, FormatDate, FormatDrilldown, FormatCurrency, FormatAnchor, FormatSort, Digits, Padded;
    if s.dimension == "merchant" {
      FieldsOf(s, drills, map[Mode := ["detail"], Drill := drills]);
    } else {
      FieldsOf(s, drills, map[Mode := ["detail"], Group := [s.dimension], Drill := drills]);
    }
    hide Fields;
  }

  /** The examples of the program's own tests. */
  lemma PublishedBookmarks()
    ensures Written(DEFAULT) == Some(Versioned(map[]))
    ensures Written(DEFAULT.(dimension := "category")) == Some(Versioned(map[Group := ["category"]]))
    ensures
      var year := Range(Date(2024, 1, 1), Date(2024, 12, 31));
      ValidDates(Some(year)) &&
      Written(DEFAULT.(dates := Some(year), showHidden := false, showTransfers := true)) ==
      Some(Versioned(map[From := ["2024-01-01"], To := ["2024-12-31"], Hidden := ["0"], Transfers := ["1"]]))
    ensures Written(DEFAULT.(search := "milk", anchor := Some(Anchor("aggregate", 0)))) ==
            Some(Versioned(map[Search := ["milk"], SearchAt := ["aggregate:0"]]))
    ensures Written(DETAILED.(drilldowns := [COLON])) ==
            Some(Versioned(map[Mode := ["detail"], Drill := ["merchant:USD:2:merchant:grocer"]]))
    ensures Written(DETAILED.(drilldowns := [GROCER, GROCERY])) ==
            Some(Versioned(map[Mode := ["detail"],
                     Drill := ["merchant:USD:2:merchant-grocer", "category:USD:2:category-grocery"]]))
    ensures Written(DETAILED.(dimension := "time", drilldowns := [FEBRUARY])) ==
            Some(Versioned(map[Mode := ["detail"], Group := ["time"], Drill := ["time:USD:2:month:2024-02"]]))
    ensures Written(DEFAULT.(currency := Some(CurrencyScope("EUR", 2)))) ==
            Some(Versioned(map[Currency := ["EUR:2"]]))
  {
    PublishedFormats();
    PublishedDefault();
    PublishedGroup();
    PublishedCurrency();
    PublishedFilters();
    PublishedSearch();
    OneDrill(COLON, "merchant:USD:2:merchant:grocer");
    TwoDrills(GROCER, GROCERY, "merchant:USD:2:merchant-grocer", "category:USD:2:category-grocery");
    OneDrill(FEBRUARY, "time:USD:2:month:2024-02");
    hide Written, DrillTexts, FormatDrilldown;
    PublishedDrills(DETAILED.(drilldowns := [COLON]), ["merchant:USD:2:merchant:grocer"]);
    PublishedDrills(DETAILED.(drilldowns := [GROCER, GROCERY]),
                    ["merchant:USD:2:merchant-grocer", "category:USD:2:category-grocery"]);
    PublishedDrills(DETAILED.(dimension := "time", drilldowns := [FEBRUARY]), ["time:USD:2:month:2024-02"]);
  }

  // What a state is written as, from its entries.
  lemma FieldsOf(s: Analytical, drills: seq<string>, values: Values)
    requires ValidDates(s.dates) && DrillTexts(s.drilldowns) == Some(drills)
    requires forall f :: f in FIELDS ==> Entry(s, drills, f) == if f in values then values[f] else []
    requires forall f :: f in values ==> f in FIELDS && values[f] != []
    ensures Written(s) == Some(Versioned(values))
  {
    SmallNumbers();
    hide Entry, DrillTexts, Digits, Padded;
    assert Fields(s, drills) == values;
  }

  // What fields mean ------------------------------------------------------------------------------------------

  /** The decoder's reading of a field that may be left out. */
  ghost predicate Reads(v: Values, f: Field, standard: string, value: string) {
    value == if f in v && v[f] != [] then v[f][0] else standard
  }

  ghost predicate ReadsFlag(v: Values, f: Field, standard: bool, value: bool) {
    if f in v && v[f] != [] then v[f][0] == (if value then "1" else "0") else value == standard
  }

  /** The sort a view has unless it says otherwise. */
  ghost predicate StandardSort(s: Analytical, sort: SortSpec) {
    if s.subGrouping == Some("time") || (s.subGrouping.None? && s.mode != "detail" && s.dimension == "time")
    then sort == SortSpec("time_period", "asc")
    else if s.subGrouping.None? && s.mode == "detail" then sort == SortSpec("date", "desc")
    else sort == SortSpec("amount", "desc")
  }

  /** What the fields of a bookmark, or of a return frame in it, mean. */
  lemma FieldsMean(v: Values)
    requires Decoded(v).Some?
    ensures
      var s := Decoded(v).value;
      && Reads(v, Mode, "aggregate", s.mode) && Reads(v, Group, "merchant", s.dimension)
      && s.subGrouping == Scalar(v, Subgroup)
      && Reads(v, Time, "year", s.time) && Reads(v, Search, "", s.search)
      && ReadsFlag(v, Hidden, true, s.showHidden) && ReadsFlag(v, Transfers, false, s.showTransfers)
      && (s.dates.Some? <==> Scalar(v, From).Some?) && (s.dates.Some? <==> Scalar(v, To).Some?)
      && (s.dates.Some? ==>
            Scalar(v, From).Some? && ParseDate(Scalar(v, From).value) == Some(s.dates.value.start)
            && Scalar(v, To).Some? && ParseDate(Scalar(v, To).value) == Some(s.dates.value.end))
      && (s.currency.Some? <==> Scalar(v, Currency).Some?)
      && (s.currency.Some? ==> Scalar(v, Currency).Some? && ParseCurrency(Scalar(v, Currency).value) == s.currency)
      && (s.anchor.Some? <==> Scalar(v, SearchAt).Some?)
      && (s.anchor.Some? ==> Scalar(v, SearchAt).Some? && ParseAnchor(Scalar(v, SearchAt).value) == s.anchor)
      && (if Scalar(v, Sort).Some? then ParseSort(Scalar(v, Sort).value) == Some(s.sort) else StandardSort(s, s.sort))
      && |s.drilldowns| == |All(v, Drill)|
      && (forall i :: 0 <= i < |s.drilldowns| ==> ParseDrilldown(All(v, Drill)[i]) == Some(s.drilldowns[i]))
      && (s.timeChosen <==> Scalar(v, Time).Some? && s.currency.Some?)
  {
    DrillsOneByOne(All(v, Drill));
    hide ParseDate, ParseCurrency, ParseAnchor, ParseSort, ParseDrilldown, Drills, All;
  }

  lemma {:induction false} DrillsOneByOne(texts: seq<string>)
    ensures Drills(texts).Some? ==>
      && |Drills(texts).value| == |texts|
      && forall i :: 0 <= i < |texts| ==> ParseDrilldown(texts[i]) == Some(Drills(texts).value[i])
  {
    hide ParseDrilldown;
    if texts != [] {
      DrillsOneByOne(texts[..|texts| - 1]);
    }
  }

  // Canonical texts -------------------------------------------------------------------------------------------

  /** Dates and periods are accepted in the one form they are written in. */
  lemma DatesAreCanonical(s: string, d: Date)
    ensures ParseDate(s) == Some(d) <==> Valid(d) && FormatDate(d) == s
  {
    if Valid(d) {
      DateRoundTrip(d);
    }
    hide FormatDate, ParseDigits, Split;
  }

  lemma PeriodsAreCanonical(s: string, p: Period)
    ensures ParsePeriod(s) == Some(p) <==> ValidPeriod(p) && FormatPeriod(p) == s
  {
    if ValidPeriod(p) {
      PeriodRoundTrip(p);
    }
    hide FormatPeriod, ParseInt, Split, Cut, ValidPeriod;
  }

  /** So are currencies, sorts and search anchors. */
  lemma CurrenciesAreCanonical(s: string, c: CurrencyScope)
    ensures ParseCurrency(s) == Some(c) <==> ValidCurrency(c.currency) && c.scale <= 255 && FormatCurrency(c) == s
  {
    CutParts(s, ':');
    if ValidCurrency(c.currency) && c.scale <= 255 {
      CurrencyRoundTrip(c);
    }
    hide Cut, Digits;
    assert ParseCurrency(s) == Some(c) ==> s == c.currency + [':'] + Digits(c.scale);
  }

  lemma SortsAreCanonical(s: string, x: SortSpec)
    ensures ParseSort(s) == Some(x) <==> Free(x.field, ':') && Free(x.direction, ':') && FormatSort(x) == s
  {
    CutParts(s, ':');
    if Free(x.field, ':') && Free(x.direction, ':') {
      SortRoundTrip(x);
    }
    hide Cut;
    assert ParseSort(s) == Some(x) ==> s == x.field + [':'] + x.direction;
  }

  lemma AnchorsAreCanonical(s: string, a: Anchor)
    ensures ParseAnchor(s) == Some(a) <==>
      Free(a.mode, ':') && -INT_MAX - 1 <= a.depth <= INT_MAX && FormatAnchor(a) == s
  {
    CutParts(s, ':');
    if Free(a.mode, ':') && -INT_MAX - 1 <= a.depth <= INT_MAX {
      AnchorRoundTrip(a);
    }
    hide Cut, FormatInt;
  }

  /** And drill-downs: different texts never stand for one drill-down. */
  lemma DrilldownsAreCanonical(s: string, d: Drilldown)
    ensures ParseDrilldown(s) == Some(d) ==> FormatDrilldown(d) == Some(s)
  {
    var (dimension, afterDimension, found) := Cut(s, ':');
    var (currency, afterCurrency, foundCurrency) := Cut(afterDimension, ':');
    var (scale, key, foundScale) := Cut(afterCurrency, ':');
    CutParts(s, ':');
    CutParts(afterDimension, ':');
    CutParts(afterCurrency, ':');
    if ParseDrilldown(s) == Some(d) {
      if dimension == TIME {
        PeriodsAreCanonical(key, d.period.value);
      }
      ScaleIsCanonical(scale);
      hide Cut, Free, ParsePeriod, FormatPeriod, ValidPeriod, ParseScale, Digits;
      FourParts(s, dimension, afterDimension, currency, afterCurrency, scale, key);
    }
  }

  lemma FourParts(s: string, a: string, afterA: string, b: string, afterB: string, c: string, d: string)
    requires s == a + [':'] + afterA && afterA == b + [':'] + afterB && afterB == c + [':'] + d
    ensures s == a + ":" + b + ":" + c + ":" + d
  {
  }

  lemma ScaleIsCanonical(s: string)
    ensures ParseScale(s).Some? ==> Digits(ParseScale(s).value) == s
  {
    hide Digits;
  }

  /** A return frame is its kind and the fields of its state, in that order. */
  lemma FramesAreRead(text: string, lib: Library)
    requires ReadFrame(text, lib).Some?
    ensures
      var frame := ReadFrame(text, lib).value;
      && frame.kind in {"navigation", "subgroup"}
      && exists query :: text == frame.kind + ":" + query && lib.parse(query).Some?
           && Decoded(lib.parse(query).value) == Some(frame.state)
  {
    CutParts(text, ':');
    hide Cut, Decoded, FieldsAllowed;
    var query := Cut(text, ':').1;
    assert text == ReadFrame(text, lib).value.kind + ":" + query;
  }

  // What accepted bookmarks satisfy -----------------------------------------------------------------------------

  /** A state that the program works with: known names, dates in order, a search with the place it began at, one
  drill-down per dimension in the currency of the view, and a sort that its rows have. */
  ghost predicate Sound(s: Analytical) {
    && s.dimension in {"merchant", "category", "group", "account", "time"}
    && (s.subGrouping.Some? ==> s.subGrouping.value in {"merchant", "category", "group", "account", "time"})
    && (s.subGrouping.None? ==> s.mode in {"aggregate", "detail"}) && s.time in {"year", "month", "day"}
    && (s.dates.Some? ==>
          Valid(s.dates.value.start) && Valid(s.dates.value.end) && AtMost(s.dates.value.start, s.dates.value.end))
    && (s.search == "" <==> s.anchor.None?)
    && (s.anchor.Some? ==> s.anchor.value.mode in {"aggregate", "detail"} && 0 <= s.anchor.value.depth <= 5)
    && (forall i :: 0 <= i < |s.drilldowns| ==>
          s.drilldowns[i].dimension in {"merchant", "category", "group", "account", "time"}
          && (s.currency.Some? ==>
                s.drilldowns[i].currency == s.currency.value.currency
                    && s.drilldowns[i].scale == s.currency.value.scale))
    && (forall i, j :: 0 <= i < j < |s.drilldowns| ==> s.drilldowns[i].dimension != s.drilldowns[j].dimension)
    && (forall i :: 0 <= i < |s.drilldowns| ==> DurableDrilldown(s.drilldowns[i]))
    && (s.currency.Some? ==> ValidCurrency(s.currency.value.currency) && s.currency.value.scale < 256)
    && SortsItsRows(s)
  }

  ghost predicate SortsItsRows(s: Analytical) {
    && s.sort.direction in {"asc", "desc"}
    && if s.subGrouping.None? && s.mode != "aggregate"
       then s.sort.field in {"date", "merchant", "category", "account", "amount"}
       else
         var rows := if s.subGrouping.Some? then s.subGrouping.value else s.dimension;
         s.sort.field in {"count", "amount", if rows == "time" then "time_period" else rows}
  }

  lemma ValidIsSound(s: Analytical)
    requires ValidAnalytical(s)
    ensures Sound(s)
  {
    assert forall i :: 0 <= i < |s.drilldowns| ==> KnownDimension(s.drilldowns[i].dimension);
    hide DurableDrilldown, ValidCurrency, Valid;
  }

  lemma SoundIsValid(s: Analytical)
    requires Sound(s)
    ensures ValidAnalytical(s)
  {
    SortFits(s);
    assert forall i :: 0 <= i < |s.drilldowns| ==> KnownDimension(s.drilldowns[i].dimension);
    hide DurableDrilldown, ValidCurrency, Valid, SortsItsRows, ValidSort;
  }

  lemma SortFits(s: Analytical)
    requires SortsItsRows(s) && (s.subGrouping.None? ==> s.mode in {"aggregate", "detail"})
    requires s.dimension in {"merchant", "category", "group", "account", "time"}
    requires s.subGrouping.Some? ==> s.subGrouping.value in {"merchant", "category", "group", "account", "time"}
    ensures ValidSort(s)
  {
  }

  /** No more than the program is ready to hold. */
  ghost predicate Bounded(s: Analytical) {
    && |s.search| <= 2048 && |s.drilldowns| <= 5
    && forall i :: 0 <= i < |s.drilldowns| ==> |s.drilldowns[i].key| <= 512
  }

  /** The names and keys of a state are texts. */
  ghost predicate Textual(s: Analytical, lib: Library) {
    lib.utf8(s.search) && forall i :: 0 <= i < |s.drilldowns| ==> lib.utf8(s.drilldowns[i].key)
  }

  /** The views that can be kept as bookmarks are exactly those of version 1 with at most six return frames, each
  state in them sound, bounded and made of texts. */
  lemma KeepableViews(v: View, lib: Library)
    ensures ValidView(v) && ViewInBounds(v, lib) <==>
      && v.version == 1 && |v.frames| <= 6
      && Sound(v.current) && Bounded(v.current) && Textual(v.current, lib)
      && forall i :: 0 <= i < |v.frames| ==>
           && v.frames[i].kind in {"navigation", "subgroup"}
           && Sound(v.frames[i].state) && Bounded(v.frames[i].state) && Textual(v.frames[i].state, lib)
  {
    SoundExactly(v.current);
    BoundsExactly(v.current, lib);
    forall i | 0 <= i < |v.frames|
      ensures ValidAnalytical(v.frames[i].state) <==> Sound(v.frames[i].state)
      ensures InBounds(v.frames[i].state, lib) <==>
        Bounded(v.frames[i].state) && Textual(v.frames[i].state, lib)
    {
      SoundExactly(v.frames[i].state);
      BoundsExactly(v.frames[i].state, lib);
    }
    hide ValidAnalytical, Sound, Bounded, Textual, InBounds;
  }

  lemma SoundExactly(s: Analytical)
    ensures ValidAnalytical(s) <==> Sound(s)
  {
    if ValidAnalytical(s) {
      ValidIsSound(s);
    }
    if Sound(s) {
      SoundIsValid(s);
    }
    hide ValidAnalytical, Sound;
  }

  lemma BoundsExactly(s: Analytical, lib: Library)
    ensures InBounds(s, lib) <==> Bounded(s) && Textual(s, lib)
  {
  }

  /** Whatever untrusted text a bookmark is, the state it is read as is sound and bounded, with at most six sound
  and bounded return frames; and the text was a version 1 bookmark of at most 65536 bytes, or empty. */
  lemma AcceptedBookmarksAreSound(raw: string, lib: Library)
    requires DecodedView(raw, lib).Success?
    ensures |raw| <= 65536 && (raw == "" || raw[0] != '?')
    ensures
      var (view, text) := DecodedView(raw, lib).value;
      && view.version == 1 && Sound(view.current) && Bounded(view.current)
      && |view.frames| <= 6 && |text| <= 65536
      && forall i :: 0 <= i < |view.frames| ==>
           view.frames[i].kind in {"navigation", "subgroup"}
           && Sound(view.frames[i].state) && Bounded(view.frames[i].state)
    ensures raw != "" ==>
      lib.parse(raw).Some? && Version in lib.parse(raw).value && lib.parse(raw).value[Version] == ["1"]
  {
    var (view, text) := DecodedView(raw, lib).value;
    SmallNumbers();
    hide ViewText, Digits, Decoded, ReadFrames, Sound, ValidAnalytical;
    ValidIsSound(view.current);
    forall i | 0 <= i < |view.frames| ensures Sound(view.frames[i].state) {
      ValidIsSound(view.frames[i].state);
    }
  }

  /** No field is read twice or from where it does not belong. */
  lemma AcceptedFieldsStandOnce(raw: string, lib: Library)
    requires DecodedView(raw, lib).Success?
    ensures lib.parse(raw).Some?
    ensures
      var v := lib.parse(raw).value;
      forall f :: f in v ==>
        && !f.Unknown?
        && if f == Drill then |v[f]| <= 5 else if f == Return then |v[f]| <= 6 else |v[f]| == 1
  {
    hide ViewText, Decoded, ReadFrames, ValidView, ViewInBounds;
    var v := lib.parse(raw).value;
    forall f | f in v ensures FieldAllowed(f, |v[f]|, true) {
    }
  }
}

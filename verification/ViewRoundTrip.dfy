/** Bookmarks: decoding reverses encoding, exactly up to a granularity nobody chose, and canonical forms are fixed. */
module ViewRoundTrip {
  import opened Wrappers
  import opened Text
  import opened Calendar
  import opened Periods
  import opened ViewCodec
  import opened ViewState

  /** A scoped view without a chosen granularity is read back with the default one; only scoped views have a choice. */
  function Normal(s: Analytical): Analytical {
    s.(time := if s.currency.Some? && !s.timeChosen then YEAR else s.time,
       timeChosen := s.timeChosen && s.currency.Some?)
  }

  predicate IsNormal(s: Analytical) {
    && (s.timeChosen ==> s.currency.Some?)
    && (s.currency.Some? && !s.timeChosen ==> s.time == YEAR)
  }

  function NormalFrames(frames: seq<Frame>): (r: seq<Frame>)
    ensures |r| == |frames|
    ensures forall i :: 0 <= i < |frames| ==> r[i] == Frame(frames[i].kind, Normal(frames[i].state))
  {
    if frames == [] then []
    else
      var last := frames[|frames| - 1];
      NormalFrames(frames[..|frames| - 1]) + [Frame(last.kind, Normal(last.state))]
  }

  function NormalView(v: View): View {
    v.(current := Normal(v.current), frames := NormalFrames(v.frames))
  }

  predicate IsNormalView(v: View) {
    IsNormal(v.current) && forall i :: 0 <= i < |v.frames| ==> IsNormal(v.frames[i].state)
  }

  lemma NormalMeans(v: View)
    ensures NormalView(v) == v <==> IsNormalView(v)
  {
    if IsNormalView(v) {
      assert NormalFrames(v.frames) == v.frames;
    } else if IsNormal(v.current) {
      var i :| 0 <= i < |v.frames| && !IsNormal(v.frames[i].state);
      assert NormalFrames(v.frames)[i] != v.frames[i];
    }
  }

  // One analytical state ------------------------------------------------------------------------------------

  /** The fields show the canonical entries of a state. */
  predicate Shows(v: Values, s: Analytical, drills: seq<string>)
    requires ValidDates(s.dates)
  {
    forall f :: f in FIELDS ==> All(v, f) == Entry(s, drills, f)
  }

  lemma ScalarIsFirst(v: Values, f: Field)
    ensures Scalar(v, f) == if All(v, f) == [] then None else Some(All(v, f)[0])
  {
  }

  lemma ScalarOf(v: Values, s: Analytical, drills: seq<string>, f: Field)
    requires ValidDates(s.dates) && Shows(v, s, drills) && f in FIELDS
    ensures Scalar(v, f) == if Entry(s, drills, f) == [] then None else Some(Entry(s, drills, f)[0])
  {
    hide Entry, ValidDates;
    assert All(v, f) == Entry(s, drills, f);
    ScalarIsFirst(v, f);
  }

  lemma NamesBack(v: Values, s: Analytical, drills: seq<string>)
    requires ValidDates(s.dates) && Shows(v, s, drills)
    ensures OrElse(Scalar(v, Mode), AGGREGATE) == s.mode && OrElse(Scalar(v, Group), "merchant") == s.dimension
    ensures Scalar(v, Subgroup) == s.subGrouping && OrElse(Scalar(v, Search), "") == s.search
  {
    hide Shows, ValidDates;
    ScalarOf(v, s, drills, Mode);
    ScalarOf(v, s, drills, Group);
    ScalarOf(v, s, drills, Subgroup);
    ScalarOf(v, s, drills, Search);
  }

  lemma TimeBack(v: Values, s: Analytical, drills: seq<string>)
    requires ValidDates(s.dates) && Shows(v, s, drills)
    ensures OrElse(Scalar(v, Time), YEAR) == Normal(s).time
    ensures (Scalar(v, Time).Some? && s.currency.Some?) == Normal(s).timeChosen
  {
    hide Shows, ValidDates;
    ScalarOf(v, s, drills, Time);
  }

  lemma FlagsBack(v: Values, s: Analytical, drills: seq<string>)
    requires ValidDates(s.dates) && Shows(v, s, drills)
    ensures FieldFlag(Scalar(v, Hidden), true) == Some(s.showHidden)
    ensures FieldFlag(Scalar(v, Transfers), false) == Some(s.showTransfers)
  {
    hide Shows, ValidDates;
    ScalarOf(v, s, drills, Hidden);
    ScalarOf(v, s, drills, Transfers);
  }

  lemma DatesBack(v: Values, s: Analytical, drills: seq<string>)
    requires ValidDates(s.dates) && Shows(v, s, drills)
    ensures FieldDates(v) == Some(s.dates)
  {
    hide Shows, FormatDate, ParseDate, Valid;
    ScalarOf(v, s, drills, From);
    ScalarOf(v, s, drills, To);
    if s.dates.Some? {
      DateRoundTrip(s.dates.value.start);
      DateRoundTrip(s.dates.value.end);
    }
  }

  lemma CurrencyBack(v: Values, s: Analytical, drills: seq<string>)
    requires ValidAnalytical(s) && Shows(v, s, drills)
    ensures FieldCurrency(v) == Some(s.currency)
  {
    hide Shows, FormatCurrency, ParseCurrency, ValidDates, ValidSort, ValidDrilldowns, ValidAnchor;
    ScalarOf(v, s, drills, Currency);
    if s.currency.Some? {
      CurrencyRoundTrip(s.currency.value);
    }
  }

  lemma ModesAreFree(m: string)
    requires KnownMode(m)
    ensures Free(m, ':')
  {
  }

  lemma AnchorBack(v: Values, s: Analytical, drills: seq<string>)
    requires ValidAnalytical(s) && Shows(v, s, drills)
    ensures FieldAnchor(v) == Some(s.anchor)
  {
    hide Shows, FormatAnchor, ParseAnchor, ValidDates, ValidSort, ValidDrilldowns, ValidScope, KnownMode;
    ScalarOf(v, s, drills, SearchAt);
    if s.anchor.Some? {
      ModesAreFree(s.anchor.value.mode);
      AnchorRoundTrip(s.anchor.value);
    }
  }

  lemma AggregateFieldsAreFree(dimension: string, field: string)
    requires ValidAggregateSort(dimension, field) || ValidDetailSort(field)
    ensures Free(field, ':')
  {
  }

  lemma DirectionsAreFree(d: string)
    requires KnownDirection(d)
    ensures Free(d, ':')
  {
  }

  lemma SortBack(v: Values, s: Analytical, drills: seq<string>)
    requires ValidDates(s.dates) && ValidSort(s) && Shows(v, s, drills)
    ensures FieldSort(v, DefaultSort(s.mode, s.dimension, s.subGrouping)) == Some(s.sort)
  {
    hide Shows, FormatSort, ParseSort, ValidDates, DefaultSort, ValidAggregateSort, ValidDetailSort, KnownDirection;
    ScalarOf(v, s, drills, Sort);
    DirectionsAreFree(s.sort.direction);
    AggregateFieldsAreFree(if s.subGrouping.Some? then s.subGrouping.value else s.dimension, s.sort.field);
    SortRoundTrip(s.sort);
  }

  lemma {:induction false} DrillsBack(ds: seq<Drilldown>)
    requires forall i :: 0 <= i < |ds| ==> DurableDrilldown(ds[i])
    ensures DrillTexts(ds).Some? && |DrillTexts(ds).value| == |ds| && Drills(DrillTexts(ds).value) == Some(ds)
  {
    hide FormatDrilldown, ParseDrilldown, DurableDrilldown;
    if ds != [] {
      DrillsBack(ds[..|ds| - 1]);
      DrilldownRoundTrip(ds[|ds| - 1]);
      var texts := DrillTexts(ds).value;
      assert texts[..|texts| - 1] == DrillTexts(ds[..|ds| - 1]).value;
      assert ds == ds[..|ds| - 1] + [ds[|ds| - 1]];
    }
  }

  lemma DrillsShown(v: Values, s: Analytical, drills: seq<string>)
    requires ValidDates(s.dates) && Shows(v, s, drills) && ValidDrilldowns(s.drilldowns)
        && DrillTexts(s.drilldowns) == Some(drills)
    ensures Drills(All(v, Drill)) == Some(s.drilldowns)
  {
    hide ValidDates, DurableDrilldown, KnownDimension, DrillTexts, Drills;
    DrillsBack(s.drilldowns);
    assert All(v, Drill) == Entry(s, drills, Drill);
  }

  lemma AnalyticalBack(v: Values, s: Analytical)
    requires ValidAnalytical(s) && DrillTexts(s.drilldowns).Some? && Shows(v, s, DrillTexts(s.drilldowns).value)
    ensures Decoded(v) == Some(Normal(s))
  {
    hide Scalar, All, FieldDates, FieldCurrency, FieldAnchor, FieldFlag, FieldSort, Drills, DefaultSort, DrillTexts,
         OrElse, Shows;
    hide ValidDates, ValidSort, ValidDrilldowns, ValidScope, KnownDimension, ValidAnchor;
    var drills := DrillTexts(s.drilldowns).value;
    NamesBack(v, s, drills);
    TimeBack(v, s, drills);
    FlagsBack(v, s, drills);
    DatesBack(v, s, drills);
    CurrencyBack(v, s, drills);
    AnchorBack(v, s, drills);
    SortBack(v, s, drills);
    DrillsShown(v, s, drills);
    hide ValidAnalytical;
  }

  lemma FieldsShow(s: Analytical, drills: seq<string>)
    requires ValidDates(s.dates)
    ensures Shows(Fields(s, drills), s, drills) && Filled(Fields(s, drills))
    ensures Version !in Fields(s, drills) && Return !in Fields(s, drills)
  {
    hide Entry, ValidDates;
  }

  lemma EntryCount(s: Analytical, drills: seq<string>, f: Field)
    requires ValidDates(s.dates) && f in FIELDS
    ensures f == Drill || |Entry(s, drills, f)| <= 1
  {
    hide ValidDates, FormatDate, FormatSort, FormatAnchor, FormatCurrency, DefaultSort, StoresTime;
  }

  lemma FieldsAreAllowed(s: Analytical, drills: seq<string>)
    requires ValidDates(s.dates) && |drills| <= MAX_DRILLDOWNS
    ensures FieldsAllowed(Fields(s, drills), false)
  {
    var v := Fields(s, drills);
    forall f | f in v
      ensures FieldAllowed(f, |v[f]|, false)
    {
      EntryCount(s, drills, f);
      FieldIsOne(s, drills, f);
    }
    hide *;
  }

  lemma FieldIsOne(s: Analytical, drills: seq<string>, f: Field)
    requires ValidDates(s.dates) && |drills| <= MAX_DRILLDOWNS && f in FIELDS && Entry(s, drills, f) != []
    requires f == Drill || |Entry(s, drills, f)| <= 1
    ensures FieldAllowed(f, |Entry(s, drills, f)|, false)
  {
    hide ValidDates, FormatDate, FormatSort, FormatAnchor, FormatCurrency, DefaultSort, StoresTime;
  }

  // Frames and whole views ------------------------------------------------------------------------------------

  /** What validity leaves to check about the frames of a view. */
  predicate FramesHold(frames: seq<Frame>, lib: Library) {
    forall i :: 0 <= i < |frames| ==>
      KnownKind(frames[i].kind) && ValidAnalytical(frames[i].state) && InBounds(frames[i].state, lib)
  }

  lemma KindsAreFree(kind: string)
    requires KnownKind(kind)
    ensures Free(kind, ':')
  {
  }

  lemma DatesOf(s: Analytical)
    requires ValidAnalytical(s)
    ensures ValidDates(s.dates)
  {
  }

  lemma StateEncodes(s: Analytical, lib: Library)
    requires ValidAnalytical(s) && InBounds(s, lib)
    ensures ValidDates(s.dates) && Encoded(s).Some? && Encoded(s).value == Fields(s, DrillTexts(s.drilldowns).value)
    ensures FieldsAllowed(Encoded(s).value, false) && Filled(Encoded(s).value)
    ensures Shows(Encoded(s).value, s, DrillTexts(s.drilldowns).value)
    ensures Version !in Encoded(s).value && Return !in Encoded(s).value
    ensures Decoded(Encoded(s).value) == Some(Normal(s))
  {
    hide DrillTexts, Fields, Filled, FieldsAllowed, Shows, Decoded, DurableDrilldown, ValidDates, ValidSort, ValidScope,
         ValidAnchor;
    DrillsBack(s.drilldowns);
    var drills := DrillTexts(s.drilldowns).value;
    FieldsShow(s, drills);
    FieldsAreAllowed(s, drills);
    AnalyticalBack(Fields(s, drills), s);
  }

  // Allowed fields are known ones, so their names can be told apart.
  lemma AllowedAreKnown(v: Values, topLevel: bool)
    requires FieldsAllowed(v, topLevel)
    ensures KnownFields(v)
  {
  }

  lemma FrameBack(frame: Frame, lib: Library)
    requires Faithful(lib) && KnownKind(frame.kind) && ValidAnalytical(frame.state) && InBounds(frame.state, lib)
    ensures ValidDates(frame.state.dates) && FrameText(frame, lib).Some?
    ensures ReadFrame(FrameText(frame, lib).value, lib) == Some(Frame(frame.kind, Normal(frame.state)))
  {
    hide Encoded, Decoded, FieldsAllowed, Filled, Shows, ValidAnalytical, InBounds, KnownKind, ValidDates, Normal, Cut,
         Fields, DrillTexts, KnownFields;
    StateEncodes(frame.state, lib);
    AllowedAreKnown(Encoded(frame.state).value, false);
    KindsAreFree(frame.kind);
    var query := lib.encode(Encoded(frame.state).value);
    assert frame.kind + ":" + query == frame.kind + [':'] + query;
    CutJoined(frame.kind, query, ':');
  }

  lemma FramesAreDated(frames: seq<Frame>, lib: Library)
    requires FramesHold(frames, lib)
    ensures FramesDated(frames)
  {
    forall i | 0 <= i < |frames|
      ensures ValidDates(frames[i].state.dates)
    {
      DatesOf(frames[i].state);
    }
    hide *;
  }

  lemma LastFrameBack(frames: seq<Frame>, lib: Library)
    requires frames != [] && FramesDated(frames) && FramesDated(frames[..|frames| - 1])
    requires
      var k := |frames| - 1;
      var before, last := FrameTexts(frames[..k], lib), FrameText(frames[k], lib);
      && before.Some? && last.Some? && |before.value| == k
      && ReadFrames(before.value, lib) == Some(NormalFrames(frames[..k]))
      && ReadFrame(last.value, lib) == Some(Frame(frames[k].kind, Normal(frames[k].state)))
    ensures FrameTexts(frames, lib).Some? && |FrameTexts(frames, lib).value| == |frames|
    ensures ReadFrames(FrameTexts(frames, lib).value, lib) == Some(NormalFrames(frames))
  {
    hide FrameText, ReadFrame, Normal, ValidDates;
    var k := |frames| - 1;
    var texts := FrameTexts(frames, lib).value;
    assert texts == FrameTexts(frames[..k], lib).value + [FrameText(frames[k], lib).value];
    assert texts[..k] == FrameTexts(frames[..k], lib).value;
  }

  lemma {:induction false} FramesBack(frames: seq<Frame>, lib: Library)
    requires Faithful(lib) && FramesHold(frames, lib)
    ensures FramesDated(frames) && FrameTexts(frames, lib).Some? && |FrameTexts(frames, lib).value| == |frames|
    ensures ReadFrames(FrameTexts(frames, lib).value, lib) == Some(NormalFrames(frames))
  {
    hide FrameText, ReadFrame, Faithful, ValidAnalytical, InBounds, KnownKind, ValidDates, Normal, FramesDated;
    FramesAreDated(frames, lib);
    if frames != [] {
      var k := |frames| - 1;
      FramesBack(frames[..k], lib);
      FrameBack(frames[k], lib);
      LastFrameBack(frames, lib);
    }
  }

  lemma SameFields(v: Values, w: Values)
    requires forall f :: f in FIELDS ==> All(v, f) == All(w, f)
    ensures Decoded(v) == Decoded(w)
  {
    hide Scalar, All, FieldFlag, Drills, DefaultSort, OrElse, ParseDate, ParseCurrency, ParseAnchor, ParseSort;
    forall f | f in FIELDS
      ensures Scalar(v, f) == Scalar(w, f)
    {
      ScalarIsFirst(v, f);
      ScalarIsFirst(w, f);
    }
  }

  lemma ViewFields(values: Values, texts: seq<string>)
    requires Filled(values) && Version !in values && Return !in values && FieldsAllowed(values, false)
        && |texts| <= MAX_RETURNS
    ensures
      var all := ViewValues(values, texts);
      && Filled(all) && FieldsAllowed(all, true) && All(all, Return) == texts
      && Scalar(all, Version) == Some(Digits(SCHEMA_VERSION))
      && forall f :: f in FIELDS ==> All(all, f) == All(values, f)
  {
    hide Digits;
    var all := ViewValues(values, texts);
    forall f | f in values
      ensures FieldAllowed(f, |values[f]|, true)
    {
      assert FieldAllowed(f, |values[f]|, false);
    }
  }

  lemma NormalIsValid(s: Analytical)
    requires ValidAnalytical(s)
    ensures ValidAnalytical(Normal(s))
  {
    hide ValidAnchor, ValidDates, ValidDrilldowns, ValidScope, KnownDimension, KnownMode, ValidAggregateSort,
         ValidDetailSort, KnownDirection;
  }

  lemma NormalIsInBounds(s: Analytical, lib: Library)
    requires InBounds(s, lib)
    ensures InBounds(Normal(s), lib)
  {
  }

  lemma NormalViewHolds(v: View, lib: Library)
    requires ValidView(v) && ViewInBounds(v, lib)
    ensures ValidView(NormalView(v)) && ViewInBounds(NormalView(v), lib)
    ensures FramesHold(v.frames, lib)
  {
    hide ValidAnalytical, InBounds, KnownKind, Normal;
    NormalIsValid(v.current);
    NormalIsInBounds(v.current, lib);
    forall i | 0 <= i < |v.frames|
      ensures ValidAnalytical(Normal(v.frames[i].state)) && InBounds(Normal(v.frames[i].state), lib)
    {
      NormalIsValid(v.frames[i].state);
      NormalIsInBounds(v.frames[i].state, lib);
    }
  }

  // A state and its normal form have the same canonical fields.

  lemma SameEntries(s: Analytical, drills: seq<string>, f: Field)
    requires ValidDates(s.dates)
    ensures Entry(s, drills, f) == Entry(Normal(s), drills, f)
  {
    hide ValidDates, FormatDate, FormatSort, FormatAnchor, FormatCurrency, DefaultSort;
  }

  lemma SameEncoding(s: Analytical)
    requires ValidDates(s.dates)
    ensures Encoded(s) == Encoded(Normal(s))
  {
    hide ValidDates, Entry, DrillTexts;
    var drills := DrillTexts(s.drilldowns);
    assert DrillTexts(Normal(s).drilldowns) == drills;
    if drills.Some? {
      forall f
        ensures Entry(s, drills.value, f) == Entry(Normal(s), drills.value, f)
      {
        SameEntries(s, drills.value, f);
      }
      assert Fields(s, drills.value) == Fields(Normal(s), drills.value);
    }
  }

  lemma SameFrameText(frame: Frame, lib: Library)
    requires ValidDates(frame.state.dates)
    ensures FrameText(Frame(frame.kind, Normal(frame.state)), lib) == FrameText(frame, lib)
  {
    hide Encoded, ValidDates;
    SameEncoding(frame.state);
  }

  lemma NormalFramesAreDated(frames: seq<Frame>)
    requires FramesDated(frames)
    ensures FramesDated(NormalFrames(frames))
  {
    hide ValidDates, NormalFrames;
  }

  lemma LastNormalFrame(frames: seq<Frame>)
    requires frames != []
    ensures
      var normal := NormalFrames(frames);
      normal[..|frames| - 1] == NormalFrames(frames[..|frames| - 1])
      && normal[|frames| - 1] == Frame(frames[|frames| - 1].kind, Normal(frames[|frames| - 1].state))
  {
    hide Normal;
  }

  lemma {:induction false} SameFrameTexts(frames: seq<Frame>, lib: Library)
    requires FramesDated(frames)
    ensures FramesDated(NormalFrames(frames)) && FrameTexts(NormalFrames(frames), lib) == FrameTexts(frames, lib)
  {
    hide Normal, FrameText, ValidDates, NormalFrames;
    NormalFramesAreDated(frames);
    if frames != [] {
      var k := |frames| - 1;
      LastNormalFrame(frames);
      SameFrameTexts(frames[..k], lib);
      SameFrameText(frames[k], lib);
    }
  }

  lemma SameText(v: View, lib: Library)
    requires ValidView(v) && ValidView(NormalView(v))
    ensures ViewText(NormalView(v), lib) == ViewText(v, lib)
  {
    hide ValidAnalytical, Encoded, Normal, FrameTexts, FramesDated;
    DatesOfView(v);
    SameEncoding(v.current);
    SameFrameTexts(v.frames, lib);
  }

  lemma TextEncodes(v: View, lib: Library)
    requires Faithful(lib) && ValidView(v) && ViewInBounds(v, lib)
    ensures ViewText(v, lib).Some? && lib.parse(ViewText(v, lib).value).Some? && !StartsWithMark(ViewText(v, lib).value)
    ensures
      var values := lib.parse(ViewText(v, lib).value).value;
      Scalar(values, Version).Some? && ReadView(values, lib) == Some(NormalView(v))
  {
    hide Encoded, Decoded, FieldsAllowed, Filled, Shows, ValidAnalytical, InBounds, KnownKind, ValidDates, Normal,
         FramesHold, FrameTexts, ReadFrames, ViewValues, Scalar, All, FIELDS, StartsWithMark, Fields, DrillTexts,
         Digits, NormalFrames, KnownFields;
    NormalViewHolds(v, lib);
    StateEncodes(v.current, lib);
    FramesBack(v.frames, lib);
    var values, texts := Encoded(v.current).value, FrameTexts(v.frames, lib).value;
    ViewFields(values, texts);
    SameFields(values, ViewValues(values, texts));
    AllowedAreKnown(ViewValues(values, texts), true);
    assert lib.parse(lib.encode(ViewValues(values, texts))) == Some(ViewValues(values, texts));
  }

  // Main results ------------------------------------------------------------------------------------------------

  /** A valid state within the bounds fails to encode only when its text is too long. */
  lemma EncodingFailsOnlyOnLength(v: View, lib: Library)
    requires Faithful(lib) && ValidView(v) && ViewInBounds(v, lib)
    ensures ViewText(v, lib).Some?
    ensures EncodedView(v, lib) == if |ViewText(v, lib).value| <= MAX_QUERY then Success(ViewText(v, lib).value)
        else Failure(TooLarge)
  {
    hide ValidView, ViewInBounds, ViewText, Scalar, ReadView;
    TextEncodes(v, lib);
  }

  /** Decoding what was encoded gives the state's normal form and the same text. */
  lemma DecodeReadsEncoding(v: View, lib: Library)
    requires Faithful(lib) && EncodedView(v, lib).Success?
    ensures DecodedView(EncodedView(v, lib).value, lib) == Success((NormalView(v), EncodedView(v, lib).value))
  {
    hide ValidView, ViewInBounds, ViewText, Scalar, ReadView, NormalView, StartsWithMark;
    TextEncodes(v, lib);
    NormalViewHolds(v, lib);
    SameText(v, lib);
  }

  /** Decoding inverts encoding exactly on normal-form states. */
  lemma DecodeInvertsEncode(v: View, lib: Library)
    requires Faithful(lib) && EncodedView(v, lib).Success?
    ensures DecodedView(EncodedView(v, lib).value, lib) == Success((v, EncodedView(v, lib).value)) <==> IsNormalView(v)
  {
    hide EncodedView, DecodedView, NormalView, IsNormalView;
    DecodeReadsEncoding(v, lib);
    NormalMeans(v);
  }

  lemma DecodedIsNormal(v: Values)
    requires Decoded(v).Some?
    ensures IsNormal(Decoded(v).value)
  {
    hide FieldDates, FieldCurrency, FieldAnchor, FieldFlag, FieldSort, Drills, DefaultSort, All;
  }

  lemma {:induction false} ReadFramesAreNormal(texts: seq<string>, lib: Library)
    requires ReadFrames(texts, lib).Some?
    ensures forall i :: 0 <= i < |ReadFrames(texts, lib).value| ==> IsNormal(ReadFrames(texts, lib).value[i].state)
  {
    if texts != [] {
      var k := |texts| - 1;
      ReadFramesAreNormal(texts[..k], lib);
      var (kind, query, found) := Cut(texts[k], ':');
      DecodedIsNormal(lib.parse(query).value);
      hide Decoded, FieldsAllowed, IsNormal, Cut, KnownKind;
    }
  }

  /** Any accepted bookmark and its canonical form stand for the same normal-form state and canonical form. */
  lemma CanonicalFormIsFixed(raw: string, lib: Library)
    requires Faithful(lib) && DecodedView(raw, lib).Success?
    ensures
      var (v, canonical) := DecodedView(raw, lib).value;
      IsNormalView(v) && EncodedView(v, lib) == Success(canonical)
          && DecodedView(canonical, lib) == Success((v, canonical))
  {
    hide ValidView, ViewInBounds, ViewText, Scalar, FieldsAllowed, Decoded, ReadFrames, IsNormal, All, Faithful;
    var (v, canonical) := DecodedView(raw, lib).value;
    var values := lib.parse(raw).value;
    DecodedIsNormal(values);
    ReadFramesAreNormal(All(values, Return), lib);
    assert EncodedView(v, lib) == Success(canonical);
    DecodeInvertsEncode(v, lib);
  }

  /** Bookmarks with one canonical form are exactly those that stand for one state. */
  lemma CanonicalFormNamesState(raw: string, other: string, lib: Library)
    requires Faithful(lib) && DecodedView(raw, lib).Success? && DecodedView(other, lib).Success?
    ensures DecodedView(raw, lib).value.0 == DecodedView(other, lib).value.0 <==>
            DecodedView(raw, lib).value.1 == DecodedView(other, lib).value.1
  {
    hide DecodedView, EncodedView, Faithful, IsNormalView;
    CanonicalFormIsFixed(raw, lib);
    CanonicalFormIsFixed(other, lib);
  }
}

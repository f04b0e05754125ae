/** Matching one finance transaction against indexed Amazon orders.

Text that the program only compares is an integer here, ordered as the text is.  Sources and indexes
are sets: no result depends on the order in which they are listed. */
module AmazonMatching {
  import opened Wrappers
  import opened Ranking
  import opened Calendar
  import opened CrossTab

  type Text = int

  const WINDOW_DAYS := 7

  datatype MatchItem = MatchItem(id: Text, order: Option<Text>, product: Text, date: Date, amount: int, details: Text)

  datatype Source = Source(profile: Text, revision: nat, currency: Text, scale: nat, items: set<MatchItem>)

  datatype Candidate = Candidate(
    profile: Text, revision: nat, currency: Text, scale: nat, order: Text, date: Date, total: int,
    items: seq<MatchItem>)

  datatype Index = Index(profile: Text, revision: nat, currency: Text, scale: nat, orders: set<Candidate>)

  datatype Payment = Payment(date: Date, minor: int, currency: Text, scale: nat)

  datatype Class = ExactOrder | FuzzyOrder | ExactItem

  datatype Confidence = High | Medium | Likely

  datatype Match = Match(
    class': Class, confidence: Confidence, profile: Text, revision: nat, order: Text, date: Date, total: int,
    days: int, difference: int, product: Text, items: seq<MatchItem>)

  // Exact differences -------------------------------------------------------------------------------------

  function AbsoluteMinor(value: int): Option<int> {
    if value == MIN_INT64 then None else if value < 0 then Some(-value) else Some(value)
  }

  function AbsoluteDifference(left: int, right: int): Option<int> {
    if (right > 0 && left < MIN_INT64 + right) || (right < 0 && left > MAX_INT64 + right) then None
    else AbsoluteMinor(left - right)
  }

  function Distance(a: int, b: int): int {
    if a < b then b - a else a - b
  }

  /** The difference of two amounts is exact, and an error exactly when its magnitude has no 64-bit
  representation. */
  lemma DifferenceIsExact(left: int, right: int)
    requires Fits(left) && Fits(right)
    ensures AbsoluteDifference(left, right) == if Distance(left, right) <= MAX_INT64 then Some(Distance(left, right))
        else None
  {
  }

  function Power10(n: nat): int {
    if n == 0 then 1 else 10 * Power10(n - 1)
  }

  /** A power of ten that fits, or an error. */
  function CheckedPower10(scale: nat): Option<int> {
    if Power10(scale) <= MAX_INT64 then Some(Power10(scale)) else None
  }

  lemma {:induction false} PowersGrow(a: nat, b: nat)
    requires a <= b
    ensures 1 <= Power10(a) <= Power10(b)
    decreases b
  {
    if a < b {
      PowersGrow(a, b - 1);
    } else if a > 0 {
      PowersGrow(a - 1, a - 1);
    }
  }

  method ComputePower10(scale: nat) returns (r: Option<int>)
    ensures r == CheckedPower10(scale)
  {
    var value := 1;
    for i := 0 to scale
      invariant value == Power10(i) <= MAX_INT64
    {
      if value > MAX_INT64 / 10 {
        PowersGrow(i + 1, scale);
        return None;
      }
      value := value * 10;
    }
    return Some(value);
  }

  function ExactTolerance(scale: nat): Option<int> {
    if scale < 2 then Some(0)
    else
      var value := CheckedPower10(scale - 2);
      if value.None? || value.value > MAX_INT64 / 2 then None else Some(value.value * 2)
  }

  function CentThreshold(scale: nat): Option<int> {
    if scale <= 2 then Some(1) else CheckedPower10(scale - 2)
  }

  /** Whether the order is the larger of two payments by at most the floor or a tenth. */
  function FuzzyMatch(payment: int, order: int, scale: nat): Option<bool> {
    if payment >= 0 || order >= 0 then Some(false)
    else
      var p, o := AbsoluteMinor(payment), AbsoluteMinor(order);
      if p.None? || o.None? then None
      else if p.value >= o.value then Some(false)
      else
        var floor := CheckedPower10(scale);
        if floor.None? || floor.value > MAX_INT64 / 15 then None
        else Some(o.value - p.value <= floor.value * 15 || o.value - p.value <= o.value / 10)
  }

  function DateDistance(a: Date, b: Date): int {
    Distance(DayNumber(a), DayNumber(b))
  }

  // Matching one order ------------------------------------------------------------------------------------

  /** One order in one of the two order passes: an error, no match, or a match. */
  function MatchOrder(t: Payment, c: Candidate, class': Class): Option<Option<Match>>
    requires class' != ExactItem
  {
    var days := DateDistance(t.date, c.date);
    if days > WINDOW_DAYS then Some(None)
    else
      var difference, tolerance := AbsoluteDifference(t.minor, c.total), ExactTolerance(c.scale);
      if difference.None? || tolerance.None? then None
      else
        var matched := if class' == ExactOrder then Some(difference.value <= tolerance.value)
            else FuzzyMatch(t.minor, c.total, c.scale);
        var cent := CentThreshold(c.scale);
        if matched.None? then None
        else if !matched.value then Some(None)
        else if class' == ExactOrder && cent.None? then None
        else
          var confidence := if class' != ExactOrder then Likely
            else if days <= 2 && difference.value < cent.value then High else Medium;
          Some(Some(Match(class', confidence, c.profile, c.revision, c.order, c.date, c.total, days, difference.value,
                          if c.items == [] then 0 else c.items[0].product, c.items)))
  }

  /** One item of an order in the item pass. */
  function MatchItemOf(t: Payment, c: Candidate, item: MatchItem): Option<Option<Match>> {
    var tolerance := ExactTolerance(c.scale);
    if tolerance.None? then None
    else
      var days := DateDistance(t.date, item.date);
      if days > WINDOW_DAYS then Some(None)
      else
        var difference := AbsoluteDifference(t.minor, item.amount);
        if difference.None? then None
        else if difference.value > tolerance.value then Some(None)
        else
          Some(Some(Match(ExactItem, if days <= 2 then High else Medium, c.profile, c.revision, c.order, item.date,
                          item.amount, days, difference.value, item.product, [item])))
  }

  // When a candidate is an error --------------------------------------------------------------------------

  lemma SomePowers()
    ensures Power10(17) == 100_000_000_000_000_000 && Power10(18) == 1_000_000_000_000_000_000
    ensures Power10(19) == 10_000_000_000_000_000_000
  {
    assert Power10(3) == 1000;
    assert Power10(6) == 1_000_000;
    assert Power10(9) == 1_000_000_000;
    assert Power10(12) == 1_000_000_000_000;
    assert Power10(15) == 1_000_000_000_000_000;
    assert Power10(17) == 100_000_000_000_000_000;
  }

  // Scales from which the thresholds no longer fit in 64 bits.
  const TOLERANCE_SCALE := 21
  const FUZZY_SCALE := 18

  lemma ThresholdScales(scale: nat)
    ensures ExactTolerance(scale).None? <==> scale >= TOLERANCE_SCALE
    ensures CentThreshold(scale).None? <==> scale >= TOLERANCE_SCALE
    ensures CheckedPower10(scale).None? || CheckedPower10(scale).value > MAX_INT64 / 15 <==> scale >= FUZZY_SCALE
  {
    SomePowers();
    PowerBounds(scale);
    if scale >= 2 {
      PowerBounds(scale - 2);
    }
    hide Power10;
  }

  lemma PowerBounds(n: nat)
    ensures n >= 18 ==> Power10(n) >= Power10(18)
    ensures n <= 18 ==> Power10(n) <= Power10(18)
    ensures n >= 19 ==> Power10(n) >= Power10(19)
    ensures n <= 17 ==> Power10(n) <= Power10(17)
  {
    if n >= 18 {
      PowersGrow(18, n);
    }
    if n <= 18 {
      PowersGrow(n, 18);
    }
    if n >= 19 {
      PowersGrow(19, n);
    }
    if n <= 17 {
      PowersGrow(n, 17);
    }
    hide Power10;
  }

  /** The magnitude of the difference has no 64-bit representation. */
  predicate TooFar(a: int, b: int) {
    Distance(a, b) > MAX_INT64
  }

  predicate Near(a: Date, b: Date) {
    DateDistance(a, b) <= WINDOW_DAYS
  }

  /** Two payments whose fuzzy comparison is an error. */
  predicate FuzzyFails(payment: int, order: int, scale: nat) {
    payment < 0 && order < 0
    && (payment == MIN_INT64 || order == MIN_INT64 || (order < payment && scale >= FUZZY_SCALE))
  }

  /** An order pass errs exactly on an order in the date window whose difference is unrepresentable, whose scale
  is too large for the tolerance, or, in the fuzzy pass, whose fuzzy comparison errs. */
  lemma OrderFailsExactly(t: Payment, c: Candidate, class': Class)
    requires class' != ExactItem && Fits(t.minor) && Fits(c.total)
    ensures MatchOrder(t, c, class').None? <==>
            Near(t.date, c.date)
            && (TooFar(t.minor, c.total) || c.scale >= TOLERANCE_SCALE
                || (class' == FuzzyOrder && FuzzyFails(t.minor, c.total, c.scale)))
  {
    ThresholdScales(c.scale);
    DifferenceIsExact(t.minor, c.total);
    hide DayNumber, ExactTolerance, CentThreshold, CheckedPower10, AbsoluteDifference;
  }

  /** The item pass errs exactly on a scale too large for the tolerance or an item in the date window whose
  difference is unrepresentable. */
  lemma ItemsFailExactly(t: Payment, c: Candidate)
    requires Fits(t.minor) && forall i :: 0 <= i < |c.items| ==> Fits(c.items[i].amount)
    ensures CandidateFails(t, c, ExactItem) <==>
            c.scale >= TOLERANCE_SCALE
            || exists i :: 0 <= i < |c.items| && Near(t.date, c.items[i].date) && TooFar(t.minor, c.items[i].amount)
  {
    ThresholdScales(c.scale);
    forall i | 0 <= i < |c.items| && c.scale < TOLERANCE_SCALE
      ensures MatchItemOf(t, c, c.items[i]).None? <==>
          Near(t.date, c.items[i].date) && TooFar(t.minor, c.items[i].amount)
    {
      DifferenceIsExact(t.minor, c.items[i].amount);
      hide DayNumber, ExactTolerance, AbsoluteDifference;
    }
    hide MatchItemOf, TooFar, Near, ExactTolerance;
  }

  // Passes as sets ---------------------------------------------------------------------------------------------

  /** An error in one pass over the candidates. */
  ghost predicate PassFails(t: Payment, cs: set<Candidate>, class': Class) {
    exists c :: c in cs && CandidateFails(t, c, class')
  }

  ghost predicate CandidateFails(t: Payment, c: Candidate, class': Class) {
    if class' == ExactItem then
      ExactTolerance(c.scale).None? || exists i :: 0 <= i < |c.items| && MatchItemOf(t, c, c.items[i]).None?
    else MatchOrder(t, c, class').None?
  }

  /** What one candidate contributes to a pass. */
  ghost function CandidateMatches(t: Payment, c: Candidate, class': Class): set<Match> {
    if class' == ExactItem then
      set i | 0 <= i < |c.items| && MatchItemOf(t, c, c.items[i]).Some? && MatchItemOf(t, c, c.items[i]).value.Some?
        :: MatchItemOf(t, c, c.items[i]).value.value
    else
      var m := MatchOrder(t, c, class');
      if m.Some? && m.value.Some? then {m.value.value} else {}
  }

  ghost function PassMatches(t: Payment, cs: set<Candidate>, class': Class): set<Match> {
    set c, m | c in cs && m in CandidateMatches(t, c, class') :: m
  }

  function FirstId(items: seq<MatchItem>): Option<Text> {
    if items == [] then None else Some(items[0].id)
  }

  /** Nearest date, then smallest difference, then profile, order and first item. */
  predicate MatchBefore(a: Match, b: Match) {
    a.days < b.days ||
    (a.days == b.days && (a.difference < b.difference ||
    (a.difference == b.difference && (a.profile < b.profile ||
    (a.profile == b.profile && (a.order < b.order ||
    (a.order == b.order && IdBefore(FirstId(a.items), FirstId(b.items)))))))))
  }

  predicate IdBefore(a: Option<Text>, b: Option<Text>) {
    if a.None? then b.Some? else b.Some? && a.value < b.value
  }

  predicate ItemBefore(a: MatchItem, b: MatchItem) {
    a.id < b.id
  }

  /** Candidates of different profiles or orders, each with its items in order. */
  ghost predicate DistinctCandidates(cs: set<Candidate>) {
    && (forall a, b :: a in cs && b in cs && a.profile == b.profile && a.order == b.order ==> a == b)
    && (forall c :: c in cs ==> Sorted(c.items, ItemBefore))
  }

  // A match names its candidate and, in the item pass, its item.
  ghost predicate NamesMatch(m: Match, c: Candidate, class': Class) {
    && m.profile == c.profile && m.order == c.order
    && if class' == ExactItem then exists i :: 0 <= i < |c.items| && m.items == [c.items[i]] else m.items == c.items
  }

  lemma MatchesAreNamed(t: Payment, c: Candidate, class': Class, m: Match)
    requires m in CandidateMatches(t, c, class')
    ensures NamesMatch(m, c, class')
  {
    hide AbsoluteDifference, ExactTolerance, FuzzyMatch, CentThreshold, DateDistance;
    if class' == ExactItem {
      var i :| 0 <= i < |c.items| && MatchItemOf(t, c, c.items[i]).Some? && MatchItemOf(t, c, c.items[i]).value.Some?
               && m == MatchItemOf(t, c, c.items[i]).value.value;
      assert m.items == [c.items[i]];
    }
  }

  lemma SameNameSameMatch(t: Payment, c: Candidate, class': Class, a: Match, b: Match)
    requires a in CandidateMatches(t, c, class') && b in CandidateMatches(t, c, class')
    requires FirstId(a.items) == FirstId(b.items) && Sorted(c.items, ItemBefore)
    ensures a == b
  {
    hide AbsoluteDifference, ExactTolerance, FuzzyMatch, CentThreshold, DateDistance;
    if class' == ExactItem {
      var i :| 0 <= i < |c.items| && MatchItemOf(t, c, c.items[i]).Some? && MatchItemOf(t, c, c.items[i]).value.Some?
               && a == MatchItemOf(t, c, c.items[i]).value.value;
      var j :| 0 <= j < |c.items| && MatchItemOf(t, c, c.items[j]).Some? && MatchItemOf(t, c, c.items[j]).value.Some?
               && b == MatchItemOf(t, c, c.items[j]).value.value;
      assert a.items == [c.items[i]] && b.items == [c.items[j]];
      SortedIds(c.items);
    }
  }

  lemma SortedIds(items: seq<MatchItem>)
    requires Sorted(items, ItemBefore)
    ensures forall i, j :: 0 <= i < |items| && 0 <= j < |items| && items[i].id == items[j].id ==> i == j
  {
    forall i, j | 0 <= i < j < |items| ensures items[i].id < items[j].id {
      assert ItemBefore(items[i], items[j]);
    }
  }

  ghost predicate UniqueNames(matches: set<Match>) {
    forall a, b ::
      (a in matches && b in matches && a.profile == b.profile && a.order == b.order
          && FirstId(a.items) == FirstId(b.items)) ==> a == b
  }

  /** The comparator orders the matches of a pass totally, so their sorted list is unique. */
  lemma PassIsTotal(t: Payment, cs: set<Candidate>, class': Class)
    requires DistinctCandidates(cs)
    ensures TotalOn(PassMatches(t, cs, class'), MatchBefore)
  {
    var matches := PassMatches(t, cs, class');
    hide CandidateMatches;
    forall a, b | a in matches && b in matches && a.profile == b.profile && a.order == b.order
        && FirstId(a.items) == FirstId(b.items)
      ensures a == b
    {
      var c :| c in cs && a in CandidateMatches(t, c, class');
      var d :| d in cs && b in CandidateMatches(t, d, class');
      MatchesAreNamed(t, c, class', a);
      MatchesAreNamed(t, d, class', b);
      SameNameSameMatch(t, c, class', a, b);
    }
    hide PassMatches, DistinctCandidates;
    NamedTotal(matches);
  }

  lemma NamedTotal(matches: set<Match>)
    requires UniqueNames(matches)
    ensures TotalOn(matches, MatchBefore)
  {
    hide FirstId;
  }

  /** The matches shown for a payment, and how many there are in all. */
  datatype Matches = Matches(shown: seq<Match>, total: nat)

  ghost function Shown(matches: set<Match>, limit: nat): Matches
    requires TotalOn(matches, MatchBefore)
  {
    var list := Listing(matches, MatchBefore);
    Matches(if limit < |list| then list[..limit] else list, |list|)
  }

  const NO_MATCHES := Matches([], 0)

  /** The three passes in precedence order: the first that finds anything decides; an error in a pass
  that is reached is an error. */
  ghost function Passes(t: Payment, cs: set<Candidate>, limit: nat): Option<Matches>
    requires DistinctCandidates(cs)
  {
    PassIsTotal(t, cs, ExactOrder);
    PassIsTotal(t, cs, FuzzyOrder);
    PassIsTotal(t, cs, ExactItem);
    if PassFails(t, cs, ExactOrder) then None
    else if PassMatches(t, cs, ExactOrder) != {} then Some(Shown(PassMatches(t, cs, ExactOrder), limit))
    else if PassFails(t, cs, FuzzyOrder) then None
    else if PassMatches(t, cs, FuzzyOrder) != {} then Some(Shown(PassMatches(t, cs, FuzzyOrder), limit))
    else if PassFails(t, cs, ExactItem) then None
    else if PassMatches(t, cs, ExactItem) != {} then Some(Shown(PassMatches(t, cs, ExactItem), limit))
    else Some(NO_MATCHES)
  }

  const CLASSES := [ExactOrder, FuzzyOrder, ExactItem]

  // The first pass that fails or finds something decides.
  lemma PassDecides(t: Payment, cs: set<Candidate>, limit: nat, i: nat)
    requires DistinctCandidates(cs) && i < |CLASSES|
    requires forall k :: 0 <= k < i ==> !PassFails(t, cs, CLASSES[k]) && PassMatches(t, cs, CLASSES[k]) == {}
    ensures PassFails(t, cs, CLASSES[i]) ==> Passes(t, cs, limit) == None
    ensures !PassFails(t, cs, CLASSES[i]) && PassMatches(t, cs, CLASSES[i]) != {} ==>
              TotalOn(PassMatches(t, cs, CLASSES[i]), MatchBefore)
              && Passes(t, cs, limit) == Some(Shown(PassMatches(t, cs, CLASSES[i]), limit))
  {
    PassIsTotal(t, cs, CLASSES[i]);
    hide PassFails, PassMatches, TotalOn, DistinctCandidates;
    assert CLASSES[0] == ExactOrder && CLASSES[1] == FuzzyOrder && CLASSES[2] == ExactItem;
    assert i > 0 ==> !PassFails(t, cs, CLASSES[0]) && PassMatches(t, cs, CLASSES[0]) == {};
    assert i > 1 ==> !PassFails(t, cs, CLASSES[1]) && PassMatches(t, cs, CLASSES[1]) == {};
  }

  /** The candidates in the payment's currency and scale. */
  ghost function Candidates(t: Payment, indexes: set<Index>): set<Candidate> {
    set i, c | i in indexes && i.currency == t.currency && i.scale == t.scale && c in i.orders :: c
  }

  ghost predicate ValidIndexes(indexes: set<Index>) {
    forall i, j, c, d :: i in indexes && j in indexes && c in i.orders && d in j.orders ==> Compatible(c, d)
  }

  // Candidates with their items in order; equal names mean equal candidates.
  ghost predicate Compatible(c: Candidate, d: Candidate) {
    Sorted(c.items, ItemBefore) && (c.profile == d.profile && c.order == d.order ==> c == d)
  }

  lemma CandidatesDistinct(t: Payment, indexes: set<Index>)
    requires ValidIndexes(indexes)
    ensures DistinctCandidates(Candidates(t, indexes))
  {
    forall a, b | a in Candidates(t, indexes) && b in Candidates(t, indexes) ensures Compatible(a, b) {
      var i :| i in indexes && a in i.orders;
      var j :| j in indexes && b in j.orders;
      assert Compatible(a, b);
    }
  }

  ghost function MatchResult(t: Payment, indexes: set<Index>, limit: int): Option<Matches>
    requires ValidIndexes(indexes)
  {
    CandidatesDistinct(t, indexes);
    if limit < 1 then None
    else if t.minor >= 0 then Some(NO_MATCHES)
    else Passes(t, Candidates(t, indexes), limit)
  }

  // The program's loops ------------------------------------------------------------------------------------

  method MatchItems(t: Payment, c: Candidate) returns (r: Option<set<Match>>)
    ensures r.None? <==> CandidateFails(t, c, ExactItem)
    ensures r.Some? ==> r.value == CandidateMatches(t, c, ExactItem)
  {
    var tolerance := ExactTolerance(c.scale);
    if tolerance.None? {
      return None;
    }
    hide MatchItemOf;
    var matches := {};
    for i := 0 to |c.items|
      invariant forall k :: 0 <= k < i ==> MatchItemOf(t, c, c.items[k]).Some?
      invariant matches == set k | 0 <= k < i && MatchItemOf(t, c, c.items[k]).Some?
          && MatchItemOf(t, c, c.items[k]).value.Some?
                           :: MatchItemOf(t, c, c.items[k]).value.value
    {
      var m := MatchItemOf(t, c, c.items[i]);
      if m.None? {
        return None;
      }
      if m.value.Some? {
        matches := matches + {m.value.value};
      }
    }
    return Some(matches);
  }

  /** One pass over the candidates. */
  method RunPass(t: Payment, orders: set<Candidate>, class': Class) returns (r: Option<set<Match>>)
    ensures r.None? <==> PassFails(t, orders, class')
    ensures r.Some? ==> r.value == PassMatches(t, orders, class')
  {
    hide MatchOrder, CandidateFails, CandidateMatches;
    var matches := {};
    var todo := orders;
    while todo != {}
      invariant todo <= orders
      invariant forall c :: c in orders && c !in todo ==> !CandidateFails(t, c, class')
      invariant matches == PassMatches(t, orders - todo, class')
      decreases todo
    {
      var order :| order in todo;
      assert orders - (todo - {order}) == orders - todo + {order};
      todo := todo - {order};
      var found: Option<set<Match>>;
      if class' == ExactItem {
        found := MatchItems(t, order);
      } else {
        var m := MatchOrder(t, order, class');
        OrderContribution(t, order, class');
        found := if m.None? then None else Some(if m.value.Some? then {m.value.value} else {});
      }
      if found.None? {
        assert CandidateFails(t, order, class');
        return None;
      }
      PassGrows(t, orders - todo - {order}, order, class');
      assert orders - todo - {order} + {order} == orders - todo;
      matches := matches + found.value;
    }
    assert orders - {} == orders;
    return Some(matches);
  }

  lemma OrderContribution(t: Payment, c: Candidate, class': Class)
    requires class' != ExactItem
    ensures CandidateFails(t, c, class') <==> MatchOrder(t, c, class').None?
    ensures MatchOrder(t, c, class').Some? ==>
              CandidateMatches(t, c, class') ==
              if MatchOrder(t, c, class').value.Some? then {MatchOrder(t, c, class').value.value} else {}
  {
    hide MatchOrder;
  }

  lemma PassGrows(t: Payment, cs: set<Candidate>, c: Candidate, class': Class)
    ensures PassMatches(t, cs + {c}, class') == PassMatches(t, cs, class') + CandidateMatches(t, c, class')
  {
    hide CandidateMatches;
  }

  /** Matches a payment against prebuilt indexes, pass by pass. */
  method MatchOrders(t: Payment, indexes: set<Index>, limit: int) returns (r: Option<Matches>)
    requires ValidIndexes(indexes)
    ensures r == MatchResult(t, indexes, limit)
  {
    hide PassFails, PassMatches, ValidIndexes, DistinctCandidates;
    if limit < 1 {
      return None;
    }
    if t.minor >= 0 {
      return Some(NO_MATCHES);
    }
    CandidatesDistinct(t, indexes);
    var orders := {};
    var todo := indexes;
    while todo != {}
      invariant todo <= indexes
      invariant orders == Candidates(t, indexes - todo)
      decreases todo
    {
      var index :| index in todo;
      ghost var before := indexes - todo;
      todo := todo - {index};
      assert indexes - todo == before + {index};
      if index.currency == t.currency && index.scale == t.scale {
        orders := orders + index.orders;
      }
    }
    assert indexes - {} == indexes;
    var classes := CLASSES;
    for i := 0 to 3
      invariant forall k :: 0 <= k < i ==> !PassFails(t, orders, classes[k]) && PassMatches(t, orders, classes[k]) == {}
    {
      var matches := RunPass(t, orders, classes[i]);
      PassDecides(t, orders, limit, i);
      if matches.None? {
        return None;
      }
      if matches.value != {} {
        PassIsTotal(t, orders, classes[i]);
        var list := Sort(matches.value, MatchBefore);
        SortedUnique(list, Listing(matches.value, MatchBefore), MatchBefore);
        return Some(Matches(if limit < |list| then list[..limit] else list, |list|));
      }
    }
    assert classes[0] == ExactOrder && classes[1] == FuzzyOrder && classes[2] == ExactItem;
    return Some(NO_MATCHES);
  }

  // Indexing a source ------------------------------------------------------------------------------------

  ghost predicate DistinctIds(items: set<MatchItem>) {
    forall a, b :: a in items && b in items && a.id == b.id ==> a == b
  }

  lemma ItemsTotal(items: set<MatchItem>)
    requires DistinctIds(items)
    ensures TotalOn(items, ItemBefore)
  {
  }

  function OrdersOf(items: set<MatchItem>): set<Text> {
    set e | e in items && e.order.Some? :: e.order.value
  }

  function ItemsIn(items: set<MatchItem>, order: Text): set<MatchItem> {
    set e | e in items && e.order == Some(order)
  }

  /** The order total, added item by item; an intermediate overflow is an error. */
  function CheckedTotal(items: seq<MatchItem>): Option<int> {
    if items == [] then Some(0)
    else
      var last, total := items[|items| - 1], CheckedTotal(items[..|items| - 1]);
      if total.None? then None
      else if (last.amount > 0 && total.value > MAX_INT64 - last.amount)
          || (last.amount < 0 && total.value < MIN_INT64 - last.amount)
        then None
      else Some(total.value + last.amount)
  }

  /** The order total without limits. */
  function TrueTotal(items: seq<MatchItem>): int {
    if items == [] then 0 else TrueTotal(items[..|items| - 1]) + items[|items| - 1].amount
  }

  /** The total of the first items fits in 64 bits, however many are taken. */
  ghost predicate RunningTotalsFit(items: seq<MatchItem>) {
    forall n :: 0 <= n <= |items| ==> Fits(TrueTotal(items[..n]))
  }

  /** The checked total is the true one, and an error exactly when some running total leaves 64 bits. */
  lemma {:induction false} CheckedTotalIsExact(items: seq<MatchItem>)
    requires forall i :: 0 <= i < |items| ==> Fits(items[i].amount)
    ensures CheckedTotal(items) == if RunningTotalsFit(items) then Some(TrueTotal(items)) else None
  {
    assert items[..|items|] == items;
    if items != [] {
      var n := |items| - 1;
      CheckedTotalIsExact(items[..n]);
      assert forall k :: 0 <= k <= n ==> items[..n][..k] == items[..k];
      assert RunningTotalsFit(items) <==> RunningTotalsFit(items[..n]) && Fits(TrueTotal(items)) by {
        hide TrueTotal;
        if RunningTotalsFit(items[..n]) && Fits(TrueTotal(items)) {
          forall k | 0 <= k <= |items| ensures Fits(TrueTotal(items[..k])) {
            if k < |items| {
              assert items[..n][..k] == items[..k];
            }
          }
        }
      }
    }
  }

  /** The earliest item date; the first of equals. */
  function EarliestDate(items: seq<MatchItem>): Date
    requires items != []
  {
    if |items| == 1 then items[0].date
    else
      var rest, last := EarliestDate(items[..|items| - 1]), items[|items| - 1].date;
      if Before(last, rest) then last else rest
  }

  ghost function OrderItems(s: Source, order: Text): (r: seq<MatchItem>)
    requires DistinctIds(s.items) && order in OrdersOf(s.items)
    ensures Sorted(r, ItemBefore) && Elements(r) == ItemsIn(s.items, order) && r != []
  {
    var items := ItemsIn(s.items, order);
    ItemsTotal(items);
    var e :| e in s.items && e.order == Some(order);
    assert e in items;
    var r := Listing(items, ItemBefore);
    assert e in Elements(r);
    r
  }

  ghost function CandidateOf(s: Source, order: Text): Option<Candidate>
    requires DistinctIds(s.items) && order in OrdersOf(s.items)
  {
    var items := OrderItems(s, order);
    var total := CheckedTotal(items);
    if total.None? then None
    else Some(Candidate(s.profile, s.revision, s.currency, s.scale, order, EarliestDate(items), total.value, items))
  }

  /** The index of a source: one candidate per order. */
  ghost function IndexOf(s: Source): Option<Index>
    requires DistinctIds(s.items)
  {
    if exists o :: o in OrdersOf(s.items) && CandidateOf(s, o).None? then None
    else Some(Index(s.profile, s.revision, s.currency, s.scale,
                    set o | o in OrdersOf(s.items) && CandidateOf(s, o).Some? :: CandidateOf(s, o).value))
  }

  /** Indexing fails exactly on an order some of whose running totals, taken in item order, leaves 64 bits. */
  lemma IndexFailsExactly(s: Source)
    requires DistinctIds(s.items) && forall e :: e in s.items ==> Fits(e.amount)
    ensures IndexOf(s).None? <==> exists o :: o in OrdersOf(s.items) && !RunningTotalsFit(OrderItems(s, o))
  {
    forall o | o in OrdersOf(s.items)
      ensures CandidateOf(s, o).None? <==> !RunningTotalsFit(OrderItems(s, o))
    {
      var items := OrderItems(s, o);
      forall i | 0 <= i < |items| ensures Fits(items[i].amount) {
        assert items[i] in Elements(items);
      }
      CheckedTotalIsExact(items);
      hide CheckedTotal, TrueTotal, RunningTotalsFit, OrderItems;
    }
    hide CandidateOf, RunningTotalsFit, OrderItems, OrdersOf;
  }

  method TotalAndDate(items: seq<MatchItem>) returns (r: Option<(int, Date)>)
    requires items != []
    ensures r.None? <==> CheckedTotal(items).None?
    ensures r.Some? ==> CheckedTotal(items) == Some(r.value.0) && r.value.1 == EarliestDate(items)
  {
    var total, date := 0, items[0].date;
    for i := 0 to |items|
      invariant CheckedTotal(items[..i]) == Some(total)
      invariant date == if i == 0 then items[0].date else EarliestDate(items[..i])
    {
      assert items[..i + 1][..i] == items[..i];
      var item := items[i];
      if (item.amount > 0 && total > MAX_INT64 - item.amount) || (item.amount < 0 && total < MIN_INT64 - item.amount) {
        TotalStaysBad(items, i + 1);
        return None;
      }
      total := total + item.amount;
      if Before(item.date, date) {
        date := item.date;
      }
    }
    assert items[..|items|] == items;
    return Some((total, date));
  }

  lemma {:induction false} TotalStaysBad(items: seq<MatchItem>, n: nat)
    requires n <= |items| && CheckedTotal(items[..n]).None?
    ensures CheckedTotal(items).None?
  {
    if n == |items| {
      assert items[..n] == items;
    } else {
      assert items[..|items| - 1][..n] == items[..n];
      TotalStaysBad(items[..|items| - 1], n);
    }
  }

  /** Groups a source into candidates; it fails exactly when some order's running total overflows. */
  method IndexOrders(s: Source) returns (r: Option<Index>)
    requires DistinctIds(s.items)
    ensures r == IndexOf(s)
  {
    hide DistinctIds, OrdersOf, ItemsIn, CheckedTotal, EarliestDate, Sorted, Elements, TotalOn;
    var candidates: set<Candidate> := {};
    var todo := OrdersOf(s.items);
    ghost var all := todo;
    while todo != {}
      invariant todo <= all == OrdersOf(s.items)
      invariant forall o :: o in all && o !in todo ==> CandidateOf(s, o).Some?
      invariant candidates == set o | o in all && o !in todo && CandidateOf(s, o).Some? :: CandidateOf(s, o).value
      decreases todo
    {
      ghost var some: Text := SomeElement(todo);
      var order: Text :| order in todo;
      todo := todo - {order};
      OrderTotal(s, order);
      var items := Sort(ItemsIn(s.items, order), ItemBefore);
      SortedUnique(items, OrderItems(s, order), ItemBefore);
      var facts := TotalAndDate(items);
      if facts.None? {
        return None;
      }
      candidates := candidates + {
        Candidate(s.profile, s.revision, s.currency, s.scale, order, facts.value.1, facts.value.0, items)};
    }
    hide CandidateOf;
    assert candidates == set o | o in OrdersOf(s.items) && CandidateOf(s, o).Some? :: CandidateOf(s, o).value;
    return Some(Index(s.profile, s.revision, s.currency, s.scale, candidates));
  }

  lemma OrderTotal(s: Source, order: Text)
    requires DistinctIds(s.items)
    ensures TotalOn(ItemsIn(s.items, order), ItemBefore)
  {
    ItemsTotal(ItemsIn(s.items, order));
  }

  // Where a candidate of an index comes from.
  ghost predicate ComesFrom(c: Candidate, s: Source) {
    DistinctIds(s.items) && exists o :: o in OrdersOf(s.items) && CandidateOf(s, o) == Some(c)
  }

  lemma IndexedCandidate(s: Source, i: Index, c: Candidate)
    requires DistinctIds(s.items) && IndexOf(s) == Some(i) && c in i.orders
    ensures ComesFrom(c, s)
  {
    hide DistinctIds, OrdersOf, CandidateOf;
    var o :| o in OrdersOf(s.items) && CandidateOf(s, o).Some? && c == CandidateOf(s, o).value;
  }

  lemma CandidateNames(c: Candidate, d: Candidate, s: Source)
    requires ComesFrom(c, s) && ComesFrom(d, s) && c.order == d.order
    ensures c == d
  {
    hide OrdersOf, CheckedTotal, EarliestDate, OrderItems, DistinctIds;
  }

  lemma CandidateFacts(c: Candidate, s: Source)
    requires ComesFrom(c, s)
    ensures c.profile == s.profile && Sorted(c.items, ItemBefore)
  {
    hide OrdersOf, CheckedTotal, EarliestDate, DistinctIds;
  }

  /** Freshly built indexes of sources of different profiles are valid inputs of the passes. */
  lemma BuiltIndexesAreValid(sources: set<Source>, indexes: set<Index>)
    requires forall s :: s in sources ==> DistinctIds(s.items)
    requires forall s, u :: s in sources && u in sources && s.profile == u.profile ==> s == u
    requires forall i :: i in indexes ==> exists s :: s in sources && IndexOf(s) == Some(i)
    ensures ValidIndexes(indexes)
  {
    hide DistinctIds, IndexOf, ComesFrom, Sorted;
    forall i, j, c, d | i in indexes && j in indexes && c in i.orders && d in j.orders
      ensures Compatible(c, d)
    {
      var s :| s in sources && IndexOf(s) == Some(i);
      var u :| u in sources && IndexOf(u) == Some(j);
      IndexedCandidate(s, i, c);
      IndexedCandidate(u, j, d);
      CandidateFacts(c, s);
      CandidateFacts(d, u);
      if c.profile == d.profile && c.order == d.order {
        assert s == u;
        CandidateNames(c, d, s);
      }
    }
    assert ValidIndexes(indexes);
  }
}

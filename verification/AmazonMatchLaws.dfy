/** What the matching of payments with Amazon orders means: which orders and items match, how sure a match
is, which facts an indexed order shows, and which matches a bounded list keeps. */
module AmazonMatchLaws {
  import opened Wrappers
  import opened Ranking
  import opened Calendar
  import opened CrossTab
  import opened AmazonMatching

  // Indexed orders --------------------------------------------------------------------------------------------

  /** The date of some item, and no item is earlier. */
  ghost predicate Earliest(items: seq<MatchItem>, date: Date) {
    (exists i :: 0 <= i < |items| && items[i].date == date)
    && forall i :: 0 <= i < |items| ==> !Before(items[i].date, date)
  }

  lemma {:induction false} EarliestIsEarliest(items: seq<MatchItem>)
    requires items != []
    ensures Earliest(items, EarliestDate(items))
  {
    var last := items[|items| - 1];
    if |items| > 1 {
      var rest := items[..|items| - 1];
      EarliestIsEarliest(rest);
      forall i | 0 <= i < |items| ensures !Before(items[i].date, EarliestDate(items)) {
        if i < |rest| {
          assert rest[i] == items[i];
        }
      }
      var i :| 0 <= i < |rest| && rest[i].date == EarliestDate(rest);
      assert items[i].date == EarliestDate(rest) && items[|rest|].date == last.date;
    }
  }

  /** An indexed order lists exactly the source's items of that order by identifier, with their sum and with the
  earliest of their dates. */
  ghost predicate Sums(s: Source, c: Candidate) {
    && c.profile == s.profile && c.revision == s.revision && c.currency == s.currency && c.scale == s.scale
    && Sorted(c.items, ItemBefore) && Elements(c.items) == ItemsIn(s.items, c.order)
    && c.total == TrueTotal(c.items) && Earliest(c.items, c.date)
  }

  lemma CandidateSums(s: Source, order: Text)
    requires DistinctIds(s.items) && order in OrdersOf(s.items) && CandidateOf(s, order).Some?
    requires forall e :: e in s.items ==> Fits(e.amount)
    ensures Sums(s, CandidateOf(s, order).value) && CandidateOf(s, order).value.order == order
  {
    var items := OrderItems(s, order);
    forall i | 0 <= i < |items| ensures Fits(items[i].amount) {
      assert items[i] in Elements(items);
    }
    CheckedTotalIsExact(items);
    EarliestIsEarliest(items);
    hide CheckedTotal, TrueTotal, EarliestDate, OrderItems, Earliest, RunningTotalsFit;
  }

  /** The index of a source has one candidate for every order of the source and no others. */
  lemma IndexListsOrders(s: Source, index: Index)
    requires DistinctIds(s.items) && IndexOf(s) == Some(index) && forall e :: e in s.items ==> Fits(e.amount)
    ensures index.profile == s.profile && index.revision == s.revision
    ensures index.currency == s.currency && index.scale == s.scale
    ensures forall c :: c in index.orders ==> c.order in OrdersOf(s.items) && Sums(s, c)
    ensures forall o :: o in OrdersOf(s.items) ==> exists c :: c in index.orders && c.order == o
    ensures forall c, d :: c in index.orders && d in index.orders && c.order == d.order ==> c == d
  {
    hide CandidateOf, OrdersOf, Sums, DistinctIds;
    forall o | o in OrdersOf(s.items)
      ensures CandidateOf(s, o).Some? && CandidateOf(s, o).value in index.orders
      ensures Sums(s, CandidateOf(s, o).value) && CandidateOf(s, o).value.order == o
    {
      CandidateSums(s, o);
    }
    forall c | c in index.orders ensures exists o :: o in OrdersOf(s.items) && CandidateOf(s, o) == Some(c) {
      var o :| o in OrdersOf(s.items) && CandidateOf(s, o).Some? && CandidateOf(s, o).value == c;
    }
  }

  // What matches ----------------------------------------------------------------------------------------------

  /** At most a week apart. */
  predicate SameWeek(a: Date, b: Date) {
    -7 <= DayNumber(a) - DayNumber(b) <= 7
  }

  /** At most two days apart. */
  predicate SameDays(a: Date, b: Date) {
    -2 <= DayNumber(a) - DayNumber(b) <= 2
  }

  /** Amounts in hundredths of a unit differ by at most two. */
  predicate WithinTwoCents(a: int, b: int, scale: nat) {
    -2 * Power10(scale) <= 100 * (a - b) <= 2 * Power10(scale)
  }

  predicate WithinLessThanACent(a: int, b: int, scale: nat) {
    -Power10(scale) < 100 * (a - b) < Power10(scale)
  }

  /** Both are payments, and less was paid than the order's total: by at most fifteen units, or by at most a tenth. */
  predicate SomewhatLess(payment: int, order: int, scale: nat) {
    order < payment < 0 && (payment - order <= 15 * Power10(scale) || 10 * (payment - order) <= -order)
  }

  lemma TenTimes(n: nat)
    ensures n >= 1 ==> Power10(n) == 10 * Power10(n - 1)
    ensures n >= 2 ==> Power10(n) == 100 * Power10(n - 2)
    ensures Power10(n) >= 1 && Power10(0) == 1 && Power10(1) == 10
  {
    PowersGrow(0, n);
  }

  lemma ToleranceIsTwoCents(payment: int, total: int, scale: nat)
    requires Fits(payment) && Fits(total) && ExactTolerance(scale).Some? && !TooFar(payment, total)
    ensures AbsoluteDifference(payment, total) == Some(Distance(payment, total))
    ensures Distance(payment, total) <= ExactTolerance(scale).value <==> WithinTwoCents(payment, total, scale)
    ensures CentThreshold(scale).Some? &&
        (Distance(payment, total) < CentThreshold(scale).value <==> WithinLessThanACent(payment, total, scale))
  {
    DifferenceIsExact(payment, total);
    ThresholdScales(scale);
    TenTimes(scale);
    hide Power10;
  }

  lemma FuzzyIsSomewhatLess(payment: int, order: int, scale: nat)
    requires Fits(payment) && Fits(order) && !FuzzyFails(payment, order, scale)
    ensures FuzzyMatch(payment, order, scale) == Some(SomewhatLess(payment, order, scale))
  {
    ThresholdScales(scale);
    TenTimes(scale);
    hide Power10;
    if payment < 0 && order < payment {
      TenthIsExact(payment - order, -order);
    }
  }

  lemma TenthIsExact(difference: nat, total: nat)
    ensures difference <= total / 10 <==> 10 * difference <= total
  {
  }

  /** The facts a match of a whole order shows. */
  ghost predicate ShowsOrder(m: Match, t: Payment, c: Candidate) {
    && m.profile == c.profile && m.revision == c.revision && m.order == c.order
    && m.date == c.date && m.total == c.total && m.items == c.items
    && m.days == Distance(DayNumber(t.date), DayNumber(c.date)) && m.difference == Distance(t.minor, c.total)
    && (c.items != [] ==> m.product == c.items[0].product)
  }

  /** An order that is no error matches exactly when it is at most a week from the payment and, in the exact pass,
  costs the payment up to two cents, or, in the fuzzy pass, somewhat more; a match is highly confident exactly
  when it is exact to the cent and within two days. */
  lemma OrderMatchesExactly(t: Payment, c: Candidate, class': Class)
    requires class' != ExactItem && Fits(t.minor) && Fits(c.total) && MatchOrder(t, c, class').Some?
    ensures
      var r := MatchOrder(t, c, class').value;
      && (r.Some? <==>
            SameWeek(t.date, c.date)
            && if class' == ExactOrder then WithinTwoCents(t.minor, c.total, c.scale)
               else SomewhatLess(t.minor, c.total, c.scale))
      && (r.Some? ==> r.value.class' == class' && ShowsOrder(r.value, t, c))
      && (r.Some? && class' == FuzzyOrder ==> r.value.confidence == Likely)
      && (r.Some? && class' == ExactOrder ==>
            r.value.confidence == if SameDays(t.date, c.date) && WithinLessThanACent(t.minor, c.total, c.scale)
                                  then High else Medium)
  {
    OrderFailsExactly(t, c, class');
    if Near(t.date, c.date) {
      ThresholdScales(c.scale);
      ToleranceIsTwoCents(t.minor, c.total, c.scale);
      if class' == FuzzyOrder {
        FuzzyIsSomewhatLess(t.minor, c.total, c.scale);
      }
    }
    hide DayNumber, Power10, ExactTolerance, CentThreshold, CheckedPower10, AbsoluteDifference, WithinTwoCents,
         WithinLessThanACent, SomewhatLess, FuzzyMatch;
  }

  ghost predicate ShowsItem(m: Match, t: Payment, c: Candidate, item: MatchItem) {
    && m.class' == ExactItem && m.profile == c.profile && m.revision == c.revision && m.order == c.order
    && m.date == item.date && m.total == item.amount && m.items == [item] && m.product == item.product
    && m.days == Distance(DayNumber(t.date), DayNumber(item.date)) && m.difference == Distance(t.minor, item.amount)
  }

  /** An item that is no error matches exactly when it is at most a week from the payment and costs the payment
  up to two cents. */
  lemma ItemMatchesExactly(t: Payment, c: Candidate, item: MatchItem)
    requires Fits(t.minor) && Fits(item.amount) && MatchItemOf(t, c, item).Some?
    ensures
      var r := MatchItemOf(t, c, item).value;
      && (r.Some? <==> SameWeek(t.date, item.date) && WithinTwoCents(t.minor, item.amount, c.scale))
      && (r.Some? ==>
            && ShowsItem(r.value, t, c, item)
            && r.value.confidence == if SameDays(t.date, item.date) then High else Medium)
  {
    if Near(t.date, item.date) {
      DifferenceIsExact(t.minor, item.amount);
      ThresholdScales(c.scale);
      ToleranceIsTwoCents(t.minor, item.amount, c.scale);
    }
    hide DayNumber, Power10, ExactTolerance, CentThreshold, CheckedPower10, AbsoluteDifference, WithinTwoCents,
         WithinLessThanACent;
  }

  /** An indexed order in the payment's currency and scale. */
  ghost predicate Offered(t: Payment, indexes: set<Index>, c: Candidate) {
    exists i :: i in indexes && i.currency == t.currency && i.scale == t.scale && c in i.orders
  }

  /** The order is at most a week from the payment and its total is right for the pass. */
  ghost predicate OrderQualifies(t: Payment, c: Candidate, class': Class) {
    SameWeek(t.date, c.date)
    && if class' == ExactOrder then WithinTwoCents(t.minor, c.total, c.scale)
       else SomewhatLess(t.minor, c.total, c.scale)
  }

  ghost predicate AmountsFit(t: Payment, indexes: set<Index>) {
    Fits(t.minor)
    && forall i, c :: i in indexes && c in i.orders ==>
         Fits(c.total) && forall k :: 0 <= k < |c.items| ==> Fits(c.items[k].amount)
  }

  /** An order pass without error finds exactly the qualifying orders in the payment's currency and scale. */
  lemma OrderPassFindsQualifying(t: Payment, indexes: set<Index>, class': Class)
    requires class' != ExactItem && AmountsFit(t, indexes) && !PassFails(t, Candidates(t, indexes), class')
    ensures
      var found := PassMatches(t, Candidates(t, indexes), class');
      && (forall c :: Offered(t, indexes, c) && OrderQualifies(t, c, class') ==>
            exists m :: m in found && ShowsOrder(m, t, c))
      && (forall m :: m in found ==>
            m.class' == class' && exists c ::
              Offered(t, indexes, c) && OrderQualifies(t, c, class') && ShowsOrder(m, t, c))
  {
    var cs := Candidates(t, indexes);
    var found := PassMatches(t, cs, class');
    hide MatchOrder, OrderQualifies, ShowsOrder, Closer;
    forall c | c in cs ensures Offered(t, indexes, c) && CandidateMatchesExactly(t, c, class') {
      OfferedFits(t, indexes, c);
      QualifyingIsMatched(t, c, class');
    }
    hide CandidateMatches, CandidateFails;
    forall m | m in found
      ensures m.class' == class'
      ensures exists c :: Offered(t, indexes, c) && OrderQualifies(t, c, class') && ShowsOrder(m, t, c)
    {
      var c :| c in cs && m in CandidateMatches(t, c, class');
      assert CandidateMatchesExactly(t, c, class');
    }
    forall c | Offered(t, indexes, c) && OrderQualifies(t, c, class')
      ensures exists m :: m in found && ShowsOrder(m, t, c)
    {
      assert c in cs;
      assert CandidateMatchesExactly(t, c, class');
      var m :| m in CandidateMatches(t, c, class') && ShowsOrder(m, t, c);
      assert m in found;
    }
  }

  ghost predicate CandidateMatchesExactly(t: Payment, c: Candidate, class': Class) {
    && (OrderQualifies(t, c, class') ==> exists m :: m in CandidateMatches(t, c, class') && ShowsOrder(m, t, c))
    && (forall m :: m in CandidateMatches(t, c, class') ==>
          m.class' == class' && OrderQualifies(t, c, class') && ShowsOrder(m, t, c))
  }

  lemma OfferedFits(t: Payment, indexes: set<Index>, c: Candidate)
    requires AmountsFit(t, indexes) && c in Candidates(t, indexes)
    ensures Offered(t, indexes, c) && Fits(t.minor) && Fits(c.total)
    ensures forall k :: 0 <= k < |c.items| ==> Fits(c.items[k].amount)
  {
  }

  lemma QualifyingIsMatched(t: Payment, c: Candidate, class': Class)
    requires class' != ExactItem && Fits(t.minor) && Fits(c.total) && !CandidateFails(t, c, class')
    ensures CandidateMatchesExactly(t, c, class')
  {
    OrderMatchesExactly(t, c, class');
    hide MatchOrder, ShowsOrder, SameWeek, WithinTwoCents, SomewhatLess, WithinLessThanACent, SameDays;
  }

  ghost predicate ShowsSomeItem(m: Match, t: Payment, indexes: set<Index>) {
    exists c, k ::
      Offered(t, indexes, c) && 0 <= k < |c.items| && ItemQualifies(t, c, c.items[k]) && ShowsItem(m, t, c, c.items[k])
  }

  /** The item pass without error finds exactly the items of orders in the payment's currency and scale that are
  at most a week from the payment and cost the payment up to two cents. */
  lemma ItemPassFindsQualifying(t: Payment, indexes: set<Index>)
    requires AmountsFit(t, indexes) && !PassFails(t, Candidates(t, indexes), ExactItem)
    ensures
      var found := PassMatches(t, Candidates(t, indexes), ExactItem);
      && (forall c, k :: Offered(t, indexes, c) && 0 <= k < |c.items| && ItemQualifies(t, c, c.items[k]) ==>
            exists m :: m in found && ShowsItem(m, t, c, c.items[k]))
      && (forall m :: m in found ==> ShowsSomeItem(m, t, indexes))
  {
    var cs := Candidates(t, indexes);
    var found := PassMatches(t, cs, ExactItem);
    hide MatchItemOf, ItemQualifies, ShowsItem, ExactTolerance;
    forall c, k | c in cs && 0 <= k < |c.items|
      ensures Offered(t, indexes, c) && MatchItemOf(t, c, c.items[k]).Some?
      ensures MatchItemOf(t, c, c.items[k]).value.Some? <==> ItemQualifies(t, c, c.items[k])
      ensures MatchItemOf(t, c, c.items[k]).value.Some? ==>
          ShowsItem(MatchItemOf(t, c, c.items[k]).value.value, t, c, c.items[k])
    {
      OfferedFits(t, indexes, c);
      assert !CandidateFails(t, c, ExactItem);
      ItemMatches(t, c, c.items[k]);
    }
    forall m | m in found
      ensures ShowsSomeItem(m, t, indexes)
    {
      var c :| c in cs && m in CandidateMatches(t, c, ExactItem);
      var k :| 0 <= k < |c.items| && MatchItemOf(t, c, c.items[k]).Some? && MatchItemOf(t, c, c.items[k]).value.Some?
               && MatchItemOf(t, c, c.items[k]).value.value == m;
      assert ShowsItem(m, t, c, c.items[k]);
    }
    forall c, k | Offered(t, indexes, c) && 0 <= k < |c.items| && ItemQualifies(t, c, c.items[k])
      ensures exists m :: m in found && ShowsItem(m, t, c, c.items[k])
    {
      assert c in cs;
      var m := MatchItemOf(t, c, c.items[k]).value.value;
      assert m in CandidateMatches(t, c, ExactItem);
      assert m in found && ShowsItem(m, t, c, c.items[k]);
    }
  }

  ghost predicate ItemQualifies(t: Payment, c: Candidate, item: MatchItem) {
    SameWeek(t.date, item.date) && WithinTwoCents(t.minor, item.amount, c.scale)
  }

  lemma ItemMatches(t: Payment, c: Candidate, item: MatchItem)
    requires Fits(t.minor) && Fits(item.amount) && MatchItemOf(t, c, item).Some?
    ensures MatchItemOf(t, c, item).value.Some? <==> ItemQualifies(t, c, item)
    ensures MatchItemOf(t, c, item).value.Some? ==> ShowsItem(MatchItemOf(t, c, item).value.value, t, c, item)
  {
    ItemMatchesExactly(t, c, item);
    hide MatchItemOf, SameWeek, WithinTwoCents, ShowsItem;
  }

  // Which matches are shown -----------------------------------------------------------------------------------

  /** Fewer days from the payment, or as many and no larger difference. */
  predicate Closer(a: Match, b: Match) {
    a.days < b.days || (a.days == b.days && a.difference <= b.difference)
  }

  /** The first matches of a pass in order of closeness, up to the limit, and the number of all. */
  ghost predicate ShowsClosest(r: Matches, matches: set<Match>, limit: nat) {
    && r.total == |matches| && |r.shown| == (if limit < |matches| then limit else |matches|)
    && (forall m :: m in r.shown ==> m in matches)
    && (forall i, j :: 0 <= i < j < |r.shown| ==> r.shown[i] != r.shown[j] && Closer(r.shown[i], r.shown[j]))
    && (forall m, n :: m in r.shown && n in matches && n !in r.shown ==> Closer(m, n))
  }

  lemma ShownAreClosest(matches: set<Match>, limit: nat)
    requires TotalOn(matches, MatchBefore)
    ensures ShowsClosest(Shown(matches, limit), matches, limit)
  {
    var list := Listing(matches, MatchBefore);
    var r := Shown(matches, limit);
    hide MatchBefore;
    forall i, j | 0 <= i < j < |list| ensures list[i] != list[j] && Closer(list[i], list[j]) {
      assert MatchBefore(list[i], list[j]);
      assert list[i] in Elements(list) && list[j] in Elements(list);
      BeforeIsCloser(list[i], list[j]);
    }
    hide Closer;
    forall m | m in r.shown ensures m in matches {
      assert m in Elements(list);
    }
    forall m, n | m in r.shown && n in matches && n !in r.shown ensures Closer(m, n) {
      assert n in Elements(list);
      var i :| 0 <= i < |r.shown| && r.shown[i] == m;
      var j :| 0 <= j < |list| && list[j] == n;
      assert j >= |r.shown|;
    }
  }

  lemma BeforeIsCloser(a: Match, b: Match)
    requires MatchBefore(a, b)
    ensures Closer(a, b)
  {
  }

  /** A pass ran without error and found nothing. */
  ghost predicate Quiet(t: Payment, cs: set<Candidate>, class': Class) {
    !PassFails(t, cs, class') && PassMatches(t, cs, class') == {}
  }

  /** A pass ran without error and found what is shown. */
  ghost predicate Decides(t: Payment, cs: set<Candidate>, class': Class, r: Matches, limit: nat) {
    && !PassFails(t, cs, class') && PassMatches(t, cs, class') != {}
    && ShowsClosest(r, PassMatches(t, cs, class'), limit)
  }

  /** What a payment is matched with: nothing unless money was spent; then exact orders, without any fuzzy orders,
  without any exact items, in that precedence. */
  lemma FirstPassWithMatchesDecides(t: Payment, indexes: set<Index>, limit: int)
    requires ValidIndexes(indexes) && MatchResult(t, indexes, limit).Some?
    ensures limit >= 1
    ensures
      var r := MatchResult(t, indexes, limit).value;
      var cs := Candidates(t, indexes);
      if t.minor >= 0 then r == NO_MATCHES
      else if !Quiet(t, cs, ExactOrder) then Decides(t, cs, ExactOrder, r, limit)
      else if !Quiet(t, cs, FuzzyOrder) then Decides(t, cs, FuzzyOrder, r, limit)
      else if !Quiet(t, cs, ExactItem) then Decides(t, cs, ExactItem, r, limit)
      else r == NO_MATCHES
  {
    var cs := Candidates(t, indexes);
    CandidatesDistinct(t, indexes);
    hide Candidates, ValidIndexes, DistinctCandidates, PassFails, PassMatches, Shown, ShowsClosest;
    if t.minor < 0 {
      PassShowsClosest(t, cs, ExactOrder, limit);
      PassShowsClosest(t, cs, FuzzyOrder, limit);
      PassShowsClosest(t, cs, ExactItem, limit);
      hide TotalOn, MatchBefore;
    }
  }

  lemma PassShowsClosest(t: Payment, cs: set<Candidate>, class': Class, limit: nat)
    requires DistinctCandidates(cs)
    ensures TotalOn(PassMatches(t, cs, class'), MatchBefore)
    ensures ShowsClosest(Shown(PassMatches(t, cs, class'), limit), PassMatches(t, cs, class'), limit)
  {
    PassIsTotal(t, cs, class');
    hide PassMatches, DistinctCandidates, TotalOn, MatchBefore;
    ShownAreClosest(PassMatches(t, cs, class'), limit);
  }

  // The pass errs, and the ones before it found nothing.
  ghost predicate ErrsAt(t: Payment, cs: set<Candidate>, i: nat)
    requires i < |CLASSES|
  {
    PassFails(t, cs, CLASSES[i]) && forall k :: 0 <= k < i ==> Quiet(t, cs, CLASSES[k])
  }

  /** A match fails exactly when nothing may be shown, or when money was spent and a pass fails before any found
  something. */
  lemma MatchFailsExactly(t: Payment, indexes: set<Index>, limit: int)
    requires ValidIndexes(indexes)
    ensures
      var cs := Candidates(t, indexes);
      MatchResult(t, indexes, limit).None? <==>
        limit <= 0 || (t.minor < 0 && exists i :: 0 <= i < |CLASSES| && ErrsAt(t, cs, i))
  {
    var cs := Candidates(t, indexes);
    CandidatesDistinct(t, indexes);
    hide Candidates, ValidIndexes, DistinctCandidates, PassFails, PassMatches, Shown, MatchBefore, TotalOn;
    assert CLASSES[0] == ExactOrder && CLASSES[1] == FuzzyOrder && CLASSES[2] == ExactItem;
    assert ErrsAt(t, cs, 0) <==> PassFails(t, cs, ExactOrder);
    assert ErrsAt(t, cs, 1) <==> Quiet(t, cs, ExactOrder) && PassFails(t, cs, FuzzyOrder);
    assert ErrsAt(t, cs, 2) <==>
           Quiet(t, cs, ExactOrder) && Quiet(t, cs, FuzzyOrder) && PassFails(t, cs, ExactItem);
  }
}

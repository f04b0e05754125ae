/** What the four matching passes of an order achieve together: equal fingerprints come first and are paired as
often as possible, retired items come back only then, and products that are unique on both sides are paired. */
module AmazonPairing {
  import opened Wrappers
  import opened Ranking
  import opened AmazonReconcile
  import opened AmazonRuns

  function Least(a: nat, b: nat): nat {
    if a < b then a else b
  }

  /** The pairs of an item and a row that both have a fingerprint. */
  ghost function PairsAlike(pairs: set<Pair>, identity: Key): set<Pair> {
    set p | p in pairs && p.0.facts.identity == identity && p.1.facts.identity == identity
  }

  lemma ExactPairsAlike(items: set<Item>, rows: set<Row>, identity: Key)
    requires DistinctItems(items) && DistinctRows(rows)
    ensures |PairsAlike(ExactPairs(items, rows), identity)| ==
            Least(|Alike(items, identity)|, |AlikeRows(rows, identity)|)
  {
    var es, rs := Alike(items, identity), AlikeRows(rows, identity);
    var pairs := PairsAlike(ExactPairs(items, rows), identity);
    ExactIsOneToOne(items, rows);
    SubsetOneToOne(pairs, ExactPairs(items, rows));
    PairSizes(pairs);
    ItemsTotal(es);
    RowsTotal(rs);
    hide OneToOne, DistinctItems, DistinctRows;
    if |es| <= |rs| {
      forall e | e in es ensures e in ItemsOf(pairs) {
        RankBelowSize(e, es, ItemBefore);
        RankedItemIsPaired(items, rows, e);
        PartnerIsAlike(items, rows, e, identity);
      }
      assert ItemsOf(pairs) == es;
    } else {
      forall r | r in rs ensures r in RowsOf(pairs) {
        RankBelowSize(r, rs, RowBefore);
        RankedRowIsPaired(items, rows, r);
        RowPartnerIsAlike(items, rows, r, identity);
      }
      assert RowsOf(pairs) == rs;
    }
  }

  lemma PartnerIsAlike(items: set<Item>, rows: set<Row>, e: Item, identity: Key)
    requires e in ItemsOf(ExactPairs(items, rows)) && e.facts.identity == identity
    ensures e in ItemsOf(PairsAlike(ExactPairs(items, rows), identity))
  {
    var p :| p in ExactPairs(items, rows) && p.0 == e;
    assert ExactMatch(items, rows, p.0, p.1);
    assert p in PairsAlike(ExactPairs(items, rows), identity);
  }

  lemma RowPartnerIsAlike(items: set<Item>, rows: set<Row>, r: Row, identity: Key)
    requires r in RowsOf(ExactPairs(items, rows)) && r.facts.identity == identity
    ensures r in RowsOf(PairsAlike(ExactPairs(items, rows), identity))
  {
    var p :| p in ExactPairs(items, rows) && p.1 == r;
    assert ExactMatch(items, rows, p.0, p.1);
    assert p in PairsAlike(ExactPairs(items, rows), identity);
  }

  /** Equal fingerprints win: the active items with a fingerprint are kept by rows with it as often as there are
  both, whatever products they name. */
  lemma EqualFingerprintsWin(items: set<Item>, rows: set<Row>, identity: Key)
    requires DistinctItems(items) && DistinctRows(rows)
    ensures |PairsAlike(Match(items, rows).Kept(), identity)| ==
            Least(|Alike(Active(items), identity)|, |AlikeRows(rows, identity)|)
  {
    var m := Match(items, rows);
    var exact, kept := PairsAlike(m.exact, identity), PairsAlike(m.Kept(), identity);
    ExactPairsAlike(Active(items), rows, identity);
    MatchPartitions(items, rows);
    var es, rs := Alike(Active(items), identity), AlikeRows(rows, identity);
    SubsetOneToOne(kept, m.Kept());
    PairSizes(kept);
    assert exact <= kept;
    SubsetSize(exact, kept);
    forall p | p in kept ensures p.0 in es && p.1 in rs {
      assert p.0 in ItemsOf(m.Kept()) && p.1 in RowsOf(m.Kept());
    }
    assert ItemsOf(kept) <= es && RowsOf(kept) <= rs;
    hide Match, OneToOne, DistinctItems, DistinctRows;
    SubsetSize(ItemsOf(kept), es);
    SubsetSize(RowsOf(kept), rs);
  }

  lemma RankGrows<T>(x: T, y: T, s: set<T>, before: (T, T) -> bool)
    requires TotalOn(s, before) && x in s && y in s && before(x, y)
    ensures Rank(x, s, before) < Rank(y, s, before)
  {
    assert x in Below(y, s, before) && x !in Below(x, s, before);
    assert Below(x, s, before) <= Below(y, s, before) - {x};
    SubsetSize(Below(x, s, before), Below(y, s, before) - {x});
  }

  /** Items with one fingerprint are paired with rows in the order of both: the earlier transaction takes the row of
  the earlier file, and in one file of the earlier record. */
  lemma EqualFingerprintsPairInOrder(items: set<Item>, rows: set<Row>, p: Pair, q: Pair)
    requires DistinctItems(items) && DistinctRows(rows)
    requires p in ExactPairs(items, rows) && q in ExactPairs(items, rows)
    requires p.0.facts.identity == q.0.facts.identity && p.0.transaction < q.0.transaction
    ensures p.1.file < q.1.file || (p.1.file == q.1.file && p.1.record < q.1.record)
  {
    assert ExactMatch(items, rows, p.0, p.1) && ExactMatch(items, rows, q.0, q.1);
    var es, rs := Alike(items, p.0.facts.identity), AlikeRows(rows, p.0.facts.identity);
    ItemsTotal(es);
    RowsTotal(rs);
    RankGrows(p.0, q.0, es, ItemBefore);
    if p.1 != q.1 && RowBefore(q.1, p.1) {
      RankGrows(q.1, p.1, rs, RowBefore);
    }
  }

  /** No other item and no other row name the product that these two name, or no product as these two. */
  ghost predicate Alone(items: set<Item>, rows: set<Row>, e: Item, r: Row) {
    && e in items && r in rows && e.facts.asin == r.facts.asin
    && (forall x :: x in items && x.facts.asin == e.facts.asin ==> x == e)
    && (forall x :: x in rows && x.facts.asin == e.facts.asin ==> x == r)
  }

  lemma SoleMeansAlone(items: set<Item>, rows: set<Row>, e: Item, r: Row)
    ensures SoleMatch(items, rows, e, r) <==> Alone(items, rows, e, r)
  {
    if SoleMatch(items, rows, e, r) {
      forall x | x in items && x.facts.asin == e.facts.asin ensures x == e {
        assert x in WithAsin(items, e.facts.asin);
      }
      forall x | x in rows && x.facts.asin == e.facts.asin ensures x == r {
        assert x in RowsWithAsin(rows, r.facts.asin);
      }
    }
    if Alone(items, rows, e, r) {
      assert WithAsin(items, e.facts.asin) == {e};
      assert RowsWithAsin(rows, r.facts.asin) == {r};
    }
  }

  /** Of what fingerprints left over, an active item is kept by a row of its product exactly when both are the only
  ones of that product, whatever else differs; an item and a row without a product likewise. */
  lemma OnlyOnesOfAProductPair(items: set<Item>, rows: set<Row>, e: Item, r: Row)
    ensures
      var m := Match(items, rows);
      (e, r) in m.sole + m.asinless <==>
        Alone(Active(items) - ItemsOf(m.exact), rows - RowsOf(m.exact) - RowsOf(m.restored), e, r)
  {
    var m := Match(items, rows);
    var e1, r2 := Active(items) - ItemsOf(m.exact), rows - RowsOf(m.exact) - RowsOf(m.restored);
    SoleMeansAlone(e1, r2, e, r);
    SolesTakeBothSides(e1, r2, true, None);
    ProductsAreNamed(e1, r2);
    hide ExactPairs;
  }

  lemma ProductsAreNamed(items: set<Item>, rows: set<Row>)
    ensures forall p :: p in SolePairs(items, rows, true) ==> p.0.facts.asin.Some?
  {
  }

  /** What is left over has nothing in common: a row becomes a new item only if no unpaired item of its order,
  active or retired, has its fingerprint, and no product is left once among the active items and once among the
  rows. */
  lemma LeftoversHaveNothingInCommon(items: set<Item>, rows: set<Row>, e: Item, r: Row)
    requires DistinctItems(items) && DistinctRows(rows)
    requires r in Match(items, rows).rows
    ensures e in Match(items, rows).items ==> e.facts.identity != r.facts.identity
    ensures e in Retired(items) - ItemsOf(Match(items, rows).restored) ==> e.facts.identity != r.facts.identity
    ensures !Alone(Match(items, rows).items, Match(items, rows).rows, e, r)
  {
    SoleMeansAlone(Match(items, rows).items, Match(items, rows).rows, e, r);
    var m := Match(items, rows);
    var e1, r1 := Active(items) - ItemsOf(m.exact), rows - RowsOf(m.exact);
    var r2 := r1 - RowsOf(m.restored);
    var e3, r3 := e1 - ItemsOf(m.sole), r2 - RowsOf(m.sole);
    if e in m.items {
      ExactIsMaximal(Active(items), rows, e, r);
      hide ExactPairs;
      if e.facts.asin.Some? {
        SolesAreGone(e1, r2, true, e, r);
        AsinlessLeavesProducts(e3, r3, e, r);
      } else {
        SolesAreGone(e3, r3, false, e, r);
      }
    }
    if e in Retired(items) - ItemsOf(m.restored) {
      ExactIsMaximal(Retired(items), r1, e, r);
    }
  }

  // A pass over unique products pairs both sides of a product, or leaves both sides of it alone.
  lemma SolesTakeBothSides(items: set<Item>, rows: set<Row>, named: bool, asin: Option<Key>)
    ensures
      var pairs := SolePairs(items, rows, named);
      var es, rs := WithAsin(items - ItemsOf(pairs), asin), RowsWithAsin(rows - RowsOf(pairs), asin);
      if exists p :: p in pairs && p.0.facts.asin == asin then es == {} && rs == {}
      else es == WithAsin(items, asin) && rs == RowsWithAsin(rows, asin)
  {
    var pairs := SolePairs(items, rows, named);
    if p :| p in pairs && p.0.facts.asin == asin {
      assert SoleMatch(items, rows, p.0, p.1);
      assert p.0 in ItemsOf(pairs) && p.1 in RowsOf(pairs);
      assert WithAsin(items, asin) == {p.0} && RowsWithAsin(rows, asin) == {p.1};
      assert WithAsin(items - ItemsOf(pairs), asin) <= WithAsin(items, asin);
      assert RowsWithAsin(rows - RowsOf(pairs), asin) <= RowsWithAsin(rows, asin);
    } else {
      forall p | p in pairs ensures p.0.facts.asin != asin && p.1.facts.asin != asin {
        assert SoleMatch(items, rows, p.0, p.1);
      }
      assert WithAsin(items - ItemsOf(pairs), asin) == WithAsin(items, asin);
      assert RowsWithAsin(rows - RowsOf(pairs), asin) == RowsWithAsin(rows, asin);
    }
  }

  // After a pass over unique products, none of its kind is left unique on both sides.
  lemma SolesAreGone(items: set<Item>, rows: set<Row>, named: bool, e: Item, r: Row)
    requires e.facts.asin.Some? == named
    ensures !SoleMatch(items - ItemsOf(SolePairs(items, rows, named)), rows - RowsOf(SolePairs(items, rows, named)), e,
        r)
  {
    var pairs := SolePairs(items, rows, named);
    SolesTakeBothSides(items, rows, named, e.facts.asin);
    if SoleMatch(items, rows, e, r) {
      assert (e, r) in pairs;
      assert e in ItemsOf(pairs);
    }
    hide SolePairs;
  }

  // The last pass touches no item or row with a product identifier.
  lemma AsinlessLeavesProducts(items: set<Item>, rows: set<Row>, e: Item, r: Row)
    requires e.facts.asin.Some?
    ensures SoleMatch(items - ItemsOf(SolePairs(items, rows, false)), rows - RowsOf(SolePairs(items, rows, false)), e,
        r)
        ==> SoleMatch(items, rows, e, r)
  {
    var pairs := SolePairs(items, rows, false);
    SolesTakeBothSides(items, rows, false, e.facts.asin);
    hide SolePairs;
  }
}

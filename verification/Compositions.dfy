/** Compositions: the largest rows of one sign with their shares, the rest folded into one entry. */
module Compositions {
  import opened Wrappers
  import opened Ranking
  import opened Text
  import opened CrossTab
  import opened QueryScope
  import opened Rounding

  const TOP := 7

  datatype Entry = Entry(key: Key, name: string, net: int)

  /** A chart slice; `others` counts the folded rows and is zero for a row of its own. */
  datatype Slice = Slice(key: Key, name: string, net: int, share: int, others: nat)

  function Magnitude(net: int): int {
    if net >= 0 then net else -net
  }

  /** Largest magnitude first, then by label and key. */
  predicate EntryBefore(a: Entry, b: Entry) {
    var x, y := Magnitude(a.net), Magnitude(b.net);
    x > y || (x == y && (TextBefore(a.name, b.name) || (a.name == b.name && TextBefore(a.key, b.key))))
  }

  ghost predicate DistinctKeys(entries: set<Entry>) {
    forall a, b :: a in entries && b in entries && a.key == b.key ==> a == b
  }

  lemma EntriesTotal(entries: set<Entry>)
    requires DistinctKeys(entries)
    ensures TotalOn(entries, EntryBefore)
  {
    forall a, b, c | a in entries && b in entries && c in entries
      ensures !EntryBefore(a, a) && (a != b ==> EntryBefore(a, b) || EntryBefore(b, a))
      ensures EntryBefore(a, b) && EntryBefore(b, c) ==> EntryBefore(a, c)
    {
      TextOrder(a.name, b.name, c.name);
      TextOrder(a.key, b.key, c.key);
      hide TextBefore;
    }
    hide EntryBefore;
  }

  function Nets(entries: seq<Entry>): (r: seq<int>)
    ensures |r| == |entries| && forall i :: 0 <= i < |entries| ==> r[i] == entries[i].net
  {
    seq(|entries|, i requires 0 <= i < |entries| => entries[i].net)
  }

  function Parts(nets: seq<int>): (r: seq<int>)
    ensures |r| == |nets| && forall i :: 0 <= i < |nets| ==> r[i] == Magnitude(nets[i])
  {
    seq(|nets|, i requires 0 <= i < |nets| => Magnitude(nets[i]))
  }

  function SliceNets(slices: seq<Slice>): (r: seq<int>)
    ensures |r| == |slices| && forall i :: 0 <= i < |slices| ==> r[i] == slices[i].net
  {
    seq(|slices|, i requires 0 <= i < |slices| => slices[i].net)
  }

  function SliceShares(slices: seq<Slice>): (r: seq<int>)
    ensures |r| == |slices| && forall i :: 0 <= i < |slices| ==> r[i] == slices[i].share
  {
    seq(|slices|, i requires 0 <= i < |slices| => slices[i].share)
  }

  /** All nets have one sign. */
  ghost predicate OneSign(nets: seq<int>) {
    (forall i :: 0 <= i < |nets| ==> nets[i] > 0) || (forall i :: 0 <= i < |nets| ==> nets[i] < 0)
  }

  ghost predicate AllFitIn64(nets: seq<int>) {
    forall i :: 0 <= i < |nets| ==> Fits(nets[i])
  }

  lemma SumAppend(xs: seq<int>, x: int)
    ensures Sum(xs + [x]) == Sum(xs) + x
  {
    assert (xs + [x])[..|xs|] == xs;
  }

  lemma {:induction false} SumSplit(xs: seq<int>, n: nat)
    requires n <= |xs|
    ensures Sum(xs) == Sum(xs[..n]) + Sum(xs[n..])
  {
    if n == |xs| {
      assert xs[..n] == xs;
    } else {
      var m := |xs| - 1;
      SumSplit(xs[..m], n);
      assert xs[..m][..n] == xs[..n] && xs[..m][n..] == xs[n..][..m - n];
    }
  }

  // Magnitudes of one sign add up to the magnitude of the sum.
  lemma {:induction false} PartsAddUp(nets: seq<int>)
    requires OneSign(nets)
    ensures Sum(Parts(nets)) == Magnitude(Sum(nets))
    ensures nets != [] ==> Sum(nets) != 0
    ensures (forall i :: 0 <= i < |nets| ==> nets[i] > 0) ==> Sum(nets) >= 0
    ensures (forall i :: 0 <= i < |nets| ==> nets[i] < 0) ==> Sum(nets) <= 0
  {
    if nets != [] {
      var n := |nets| - 1;
      PartsAddUp(nets[..n]);
      assert Parts(nets)[..n] == Parts(nets[..n]);
    }
  }

  lemma {:induction false} PartsGrow(parts: seq<int>, n: nat)
    requires n <= |parts| && forall i :: 0 <= i < |parts| ==> parts[i] >= 0
    ensures 0 <= Sum(parts[..n]) <= Sum(parts)
  {
    if n == |parts| {
      assert parts[..n] == parts;
      if n > 0 {
        PartsGrow(parts[..n - 1], n - 1);
        assert parts[..n - 1][..n - 1] == parts[..n - 1];
      }
    } else {
      assert parts[..|parts| - 1][..n] == parts[..n];
      PartsGrow(parts[..|parts| - 1], n);
    }
  }

  /** The sum of the magnitudes, or nothing when it leaves 64 unsigned bits. */
  method ShareDenominator(entries: seq<Entry>) returns (r: Option<int>)
    requires AllFitIn64(Nets(entries))
    ensures r == if Sum(Parts(Nets(entries))) <= MAX_UINT64 then Some(Sum(Parts(Nets(entries)))) else None
  {
    var parts := Parts(Nets(entries));
    var denominator := 0;
    for i := 0 to |entries|
      invariant denominator == Sum(parts[..i]) && Unsigned(denominator)
    {
      assert parts[..i + 1] == parts[..i] + [parts[i]];
      SumAppend(parts[..i], parts[i]);
      PartsGrow(parts, i + 1);
      AbsIs(entries[i].net);
      var magnitude := AbsMinor(entries[i].net);
      if MAX_UINT64 - denominator < magnitude {
        return None;
      }
      denominator := denominator + magnitude;
    }
    assert parts[..|entries|] == parts;
    return Some(denominator);
  }

  // Partial sums of one sign stay on one side and grow in magnitude.
  lemma PartialSums(nets: seq<int>, n: nat)
    requires OneSign(nets) && n <= |nets|
    ensures Magnitude(Sum(nets[..n])) <= Magnitude(Sum(nets))
    ensures Fits(Sum(nets)) ==> Fits(Sum(nets[..n]))
  {
    PartsAddUp(nets);
    PartsAddUp(nets[..n]);
    assert Parts(nets)[..n] == Parts(nets[..n]);
    PartsGrow(Parts(nets), n);
    if forall i :: 0 <= i < |nets| ==> nets[i] > 0 {
      assert forall i :: 0 <= i < n ==> nets[..n][i] > 0;
    } else {
      assert forall i :: 0 <= i < n ==> nets[..n][i] < 0;
    }
  }

  /** Adds nets of one sign in 64 bits: nothing exactly when the true sum does not fit. */
  method AddNets(nets: seq<int>) returns (r: Option<int>)
    requires OneSign(nets) && AllFitIn64(nets)
    ensures r == if Fits(Sum(nets)) then Some(Sum(nets)) else None
  {
    hide OneSign;
    var net := 0;
    for i := 0 to |nets|
      invariant net == Sum(nets[..i]) && Fits(net)
    {
      assert nets[..i + 1] == nets[..i] + [nets[i]];
      SumAppend(nets[..i], nets[i]);
      PartialSums(nets, i + 1);
      AddMinorIsExact(net, nets[i]);
      var sum := AddMinor(net, nets[i]);
      if sum.None? {
        return None;
      }
      net := sum.value;
    }
    assert nets[..|nets|] == nets;
    return Some(net);
  }

  // A part of a whole never has more than 1000 tenths.
  lemma ShareAtMostWhole(part: int, whole: int)
    requires 0 <= part <= whole && whole > 0
    ensures 0 <= Rounded(part * TENTHS, whole) <= TENTHS
  {
    var a, b := 2 * (part * TENTHS) + whole, 2 * whole;
    assert a == b * (a / b) + a % b;
    Bounded(b, a / b, TENTHS + 1);
    Bounded(b, a / b, 0);
  }

  /** The share of a net in the whole; it never fails on a part of the whole. */
  method Share(net: int, whole: int) returns (r: Option<int>)
    requires Fits(net) && Unsigned(whole) && 0 < whole && Magnitude(net) <= whole
    ensures r == Some(Rounded(Magnitude(net) * TENTHS, whole))
  {
    AbsIs(net);
    var magnitude := AbsMinor(net);
    RatioIsExact(magnitude, whole, TENTHS);
    ShareAtMostWhole(magnitude, whole);
    r := RatioHalfUp(magnitude, whole, TENTHS);
  }

  // The first `count` slices of a composition: rows of their own.
  ghost predicate OwnSlices(slices: seq<Slice>, sorted: seq<Entry>, count: nat, whole: int)
    requires whole > 0
  {
    && count <= |sorted| && count <= |slices|
    && forall i :: 0 <= i < count ==>
         slices[i] == Slice(sorted[i].key, sorted[i].name, sorted[i].net,
             Rounded(Magnitude(sorted[i].net) * TENTHS, whole), 0)
  }

  /** The slice that several folded rows share. */
  function OthersSlice(count: nat, net: int, share: int): Slice {
    Slice("", Digits(count) + " others", net, share, count)
  }

  /** The slices of sorted rows of one sign. */
  ghost predicate Composed(slices: seq<Slice>, sorted: seq<Entry>) {
    if sorted == [] then slices == []
    else
      var nets := Nets(sorted);
      var whole := Sum(Parts(nets));
      && whole > 0
      && if |sorted| <= TOP then |slices| == |sorted| && OwnSlices(slices, sorted, |sorted|, whole)
         else
           var rest := Sum(nets[TOP..]);
           && |slices| == TOP + 1 && OwnSlices(slices, sorted, TOP, whole)
           && slices[TOP] == OthersSlice(|sorted| - TOP, rest, Rounded(Magnitude(rest) * TENTHS, whole))
  }

  lemma PartWithinWhole(nets: seq<int>, i: nat, j: nat)
    requires OneSign(nets) && i < j <= |nets|
    ensures Magnitude(Sum(nets[i..j])) <= Sum(Parts(nets)) && 0 < Sum(Parts(nets))
  {
    var parts := Parts(nets);
    PartsAddUp(nets);
    PartsGrow(parts, 0);
    assert OneSign(nets[i..j]);
    PartsAddUp(nets[i..j]);
    assert parts[i..j] == Parts(nets[i..j]);
    SumSplit(parts[..j], i);
    assert parts[..j][..i] == parts[..i] && parts[..j][i..] == parts[i..j];
    PartsGrow(parts, j);
    PartsGrow(parts, i);
  }

  lemma OneOf(xs: seq<int>, i: nat)
    requires i < |xs|
    ensures Sum(xs[i..i + 1]) == xs[i]
  {
    assert xs[i..i + 1] == [] + [xs[i]];
    SumAppend([], xs[i]);
  }

  lemma OwnSlicesGrow(slices: seq<Slice>, sorted: seq<Entry>, whole: int)
    requires whole > 0 && |slices| < |sorted| && OwnSlices(slices, sorted, |slices|, whole)
    ensures
      var e := sorted[|slices|];
      OwnSlices(slices + [Slice(e.key, e.name, e.net, Rounded(Magnitude(e.net) * TENTHS, whole), 0)], sorted,
          |slices| + 1, whole)
  {
    hide Rounded;
  }

  lemma OwnSlicesKept(slices: seq<Slice>, sorted: seq<Entry>, whole: int, last: Slice)
    requires whole > 0 && OwnSlices(slices, sorted, |slices|, whole)
    ensures OwnSlices(slices + [last], sorted, |slices|, whole)
  {
    hide Rounded;
  }

  /** The rows after the top share one slice. */
  method AppendOthers(slices: seq<Slice>, list: seq<Entry>, whole: int) returns (r: Option<seq<Slice>>)
    requires |slices| == TOP < |list| && whole == Sum(Parts(Nets(list))) > 0 && Unsigned(whole)
    requires OneSign(Nets(list)) && AllFitIn64(Nets(list)) && OwnSlices(slices, list, TOP, whole)
    ensures r.None? <==> !Fits(Sum(Nets(list)[TOP..]))
    ensures r.Some? ==> Composed(r.value, list)
  {
    hide OneSign, Rounded, OwnSlices;
    var nets := Nets(list);
    SuffixSign(nets, TOP);
    var rest := AddNets(nets[TOP..]);
    if rest.None? {
      return None;
    }
    PartWithinWhole(nets, TOP, |nets|);
    assert nets[TOP..|nets|] == nets[TOP..];
    var share := Share(rest.value, whole);
    var others := OthersSlice(|list| - TOP, rest.value, share.value);
    OwnSlicesKept(slices, list, whole, others);
    return Some(slices + [others]);
  }

  /** The denominator of the sorted rows, or the net of the folded ones, leaves its 64 bits. */
  ghost predicate Overflows(sorted: seq<Entry>) {
    || Sum(Parts(Nets(sorted))) > MAX_UINT64
    || (|sorted| > TOP && !Fits(Sum(Nets(sorted)[TOP..])))
  }

  /** Ranks rows of one sign: the seven largest keep their own slice, the others share one. */
  method RankEntries(entries: set<Entry>) returns (r: Option<seq<Slice>>, sorted: seq<Entry>)
    requires DistinctKeys(entries) && (forall e :: e in entries ==> Fits(e.net))
    requires (forall e :: e in entries ==> e.net > 0) || (forall e :: e in entries ==> e.net < 0)
    ensures Elements(sorted) == entries && |sorted| == |entries| && Sorted(sorted, EntryBefore)
    ensures r.Some? ==> Composed(r.value, sorted)
    ensures r.None? <==> Overflows(sorted)
  {
    hide OneSign, Sorted, EntryBefore, Rounded, OwnSlices, Elements, TotalOn, DistinctKeys;
    EntriesTotal(entries);
    var list := Sort(entries, EntryBefore);
    sorted := list;
    SignOfList(entries, list);
    var nets := Nets(list);
    if list == [] {
      assert nets == [] && Parts(nets) == [];
      return Some([]), list;
    }
    var denominator := ShareDenominator(list);
    if denominator.None? {
      return None, list;
    }
    PartWithinWhole(nets, 0, 1);
    var whole := denominator.value;
    var slices := [];
    NoSlices(list, whole);
    for i := 0 to |list|
      invariant i == |slices| <= TOP
      invariant OwnSlices(slices, list, |slices|, whole)
    {
      if i == TOP {
        r := AppendOthers(slices, list, whole);
        return r, list;
      }
      PartWithinWhole(nets, i, i + 1);
      OneOf(nets, i);
      var share := Share(list[i].net, whole);
      OwnSlicesGrow(slices, list, whole);
      slices := slices + [Slice(list[i].key, list[i].name, list[i].net, share.value, 0)];
    }
    return Some(slices), list;
  }

  datatype Composition = Composition(spending: seq<Slice>, income: seq<Slice>)

  function WithSign(entries: set<Entry>, positive: bool): set<Entry> {
    set e | e in entries && if positive then e.net > 0 else e.net < 0
  }

  /** Both sides rank exactly the entries of their sign. */
  ghost predicate Ranked(c: Composition, entries: set<Entry>) {
    && (exists spending :: RanksSide(c.spending, spending, WithSign(entries, false)))
    && (exists income :: RanksSide(c.income, income, WithSign(entries, true)))
  }

  ghost predicate RanksSide(slices: seq<Slice>, sorted: seq<Entry>, entries: set<Entry>) {
    Elements(sorted) == entries && Sorted(sorted, EntryBefore) && Composed(slices, sorted)
  }

  /** The sorted rows of one sign overflow. */
  ghost predicate SideOverflows(entries: set<Entry>) {
    exists sorted, positive :: SortedOverflow(sorted, WithSign(entries, positive))
  }

  ghost predicate SortedOverflow(sorted: seq<Entry>, entries: set<Entry>) {
    Elements(sorted) == entries && Sorted(sorted, EntryBefore) && Overflows(sorted)
  }

  // The sorted rows of one sign are unique.
  lemma NeitherOverflows(entries: set<Entry>, spending: seq<Entry>, income: seq<Entry>)
    requires DistinctKeys(entries)
    requires Sorted(spending, EntryBefore) && Elements(spending) == WithSign(entries, false) && !Overflows(spending)
    requires Sorted(income, EntryBefore) && Elements(income) == WithSign(entries, true) && !Overflows(income)
    ensures !SideOverflows(entries)
  {
    EntriesTotal(entries);
    hide Overflows, Sorted, EntryBefore, DistinctKeys;
    forall sorted, positive | SortedOverflow(sorted, WithSign(entries, positive)) ensures false {
      var other := if positive then income else spending;
      assert TotalOn(Elements(sorted), EntryBefore);
      SortedUnique(sorted, other, EntryBefore);
      assert false;
    }
  }

  /** Spending and income are ranked apart; rows without a net are left out. */
  method ComposeEntries(entries: set<Entry>) returns (r: Option<Composition>, spending: seq<Entry>, income: seq<Entry>)
    requires DistinctKeys(entries) && (forall e :: e in entries ==> Fits(e.net))
    ensures Sorted(spending, EntryBefore) && Elements(spending) == WithSign(entries, false)
    ensures r.Some? ==> Composed(r.value.spending, spending)
    ensures r.Some? ==>
      Elements(income) == WithSign(entries, true) && Sorted(income, EntryBefore) && Composed(r.value.income, income)
    ensures r.Some? ==> Ranked(r.value, entries)
    ensures r.None? <==> Overflows(spending) || Overflows(income)
    ensures r.None? <==> SideOverflows(entries)
  {
    hide Composed, Sorted, Elements, EntryBefore;
    income := [];
    var negative, positive := WithSign(entries, false), WithSign(entries, true);
    var spent;
    spent, spending := RankEntries(negative);
    if spent.None? {
      assert SortedOverflow(spending, negative);
      return None, spending, income;
    }
    var earned;
    earned, income := RankEntries(positive);
    if earned.None? {
      assert SortedOverflow(income, positive);
      return None, spending, income;
    }
    assert RanksSide(spent.value, spending, negative) && RanksSide(earned.value, income, positive);
    NeitherOverflows(entries, spending, income);
    return Some(Composition(spent.value, earned.value)), spending, income;
  }

  lemma NoSlices(sorted: seq<Entry>, whole: int)
    requires whole > 0
    ensures OwnSlices([], sorted, 0, whole)
  {
  }

  lemma SuffixSign(nets: seq<int>, n: nat)
    requires OneSign(nets) && n <= |nets|
    ensures OneSign(nets[n..])
  {
  }

  lemma SignOfList(entries: set<Entry>, list: seq<Entry>)
    requires Elements(list) == entries && (forall e :: e in entries ==> Fits(e.net))
    requires (forall e :: e in entries ==> e.net > 0) || (forall e :: e in entries ==> e.net < 0)
    ensures OneSign(Nets(list)) && AllFitIn64(Nets(list))
  {
    forall i | 0 <= i < |list| ensures list[i] in entries {
      assert list[i] in Elements(list);
    }
  }

  // What every composition satisfies --------------------------------------------------------------------

  lemma ComposedNets(slices: seq<Slice>, sorted: seq<Entry>)
    requires Composed(slices, sorted)
    ensures Sum(SliceNets(slices)) == Sum(Nets(sorted))
  {
    hide Rounded;
    var nets := Nets(sorted);
    if |sorted| <= TOP {
      assert SliceNets(slices) == nets;
    } else {
      SumSplit(nets, TOP);
      assert SliceNets(slices) == nets[..TOP] + [slices[TOP].net];
      SumAppend(nets[..TOP], slices[TOP].net);
    }
  }

  lemma ComposedSign(slices: seq<Slice>, sorted: seq<Entry>)
    requires Composed(slices, sorted) && OneSign(Nets(sorted))
    ensures OneSign(SliceNets(slices))
  {
    hide Rounded;
    var nets := Nets(sorted);
    if |sorted| > TOP {
      SuffixSign(nets, TOP);
      PartsAddUp(nets[TOP..]);
      if forall i :: 0 <= i < |nets| ==> nets[i] > 0 {
        assert forall i :: 0 <= i < |nets[TOP..]| ==> nets[TOP..][i] > 0;
      } else {
        assert forall i :: 0 <= i < |nets[TOP..]| ==> nets[TOP..][i] < 0;
      }
    }
    forall i | 0 <= i < |slices| && i < TOP ensures slices[i].net == nets[i] {
      assert OwnSlices(slices, sorted, i + 1, Sum(Parts(nets)));
    }
  }

  /** A composition has at most eight slices, conserves the net, and its shares total 996 to 1004
  tenths. */
  lemma CompositionIsConsistent(slices: seq<Slice>, sorted: seq<Entry>)
    requires Composed(slices, sorted) && OneSign(Nets(sorted)) && sorted != []
    ensures 0 < |slices| <= TOP + 1
    ensures Sum(SliceNets(slices)) == Sum(Nets(sorted))
    ensures 996 <= Sum(SliceShares(slices)) <= 1004
  {
    ComposedNets(slices, sorted);
    ComposedSign(slices, sorted);
    PartsAddUp(SliceNets(slices));
    PartsAddUp(Nets(sorted));
    var parts, shares, whole := Parts(SliceNets(slices)), SliceShares(slices), Sum(Parts(Nets(sorted)));
    ComposedShares(slices, sorted);
    hide Composed, Rounded, SharesOf, OneSign;
    SharesAddUp(shares, parts, whole);
  }

  lemma ComposedShares(slices: seq<Slice>, sorted: seq<Entry>)
    requires Composed(slices, sorted) && sorted != []
    ensures
      var whole := Sum(Parts(Nets(sorted)));
      whole > 0 && SharesOf(SliceShares(slices), Parts(SliceNets(slices)), whole)
  {
    hide Rounded;
    forall i | 0 <= i < |slices|
      ensures SliceShares(slices)[i] == Rounded(Parts(SliceNets(slices))[i] * TENTHS, Sum(Parts(Nets(sorted))))
    {
    }
  }

  /** No folded row is larger than a row with its own slice. */
  lemma OwnSlicesAreLargest(sorted: seq<Entry>, i: nat, j: nat)
    requires Sorted(sorted, EntryBefore) && i < j < |sorted|
    ensures Magnitude(sorted[i].net) >= Magnitude(sorted[j].net)
  {
    assert EntryBefore(sorted[i], sorted[j]);
  }

  /** The rows that the slices stand for. */
  function RowCount(slices: seq<Slice>): nat {
    if slices == [] then 0
    else
      var others := slices[|slices| - 1].others;
      RowCount(slices[..|slices| - 1]) + if others == 0 then 1 else others
  }

  lemma {:induction false} OwnRowCount(slices: seq<Slice>)
    requires forall i :: 0 <= i < |slices| ==> slices[i].others == 0
    ensures RowCount(slices) == |slices|
  {
    if slices != [] {
      OwnRowCount(slices[..|slices| - 1]);
    }
  }

  /** The slices stand for every row once: up to seven rows have slices of their own, and of more, all but the
  first seven share one slice, which says how many they are. */
  lemma SlicesStandForAllRows(slices: seq<Slice>, sorted: seq<Entry>)
    requires Composed(slices, sorted)
    ensures RowCount(slices) == |sorted|
    ensures |slices| == if |sorted| <= 7 then |sorted| else 8
    ensures forall i :: 0 <= i < |slices| && i < 7 ==>
      slices[i].key == sorted[i].key && slices[i].name == sorted[i].name && slices[i].net == sorted[i].net
    ensures |sorted| > 7 ==>
      slices[7].others == |sorted| - 7 && slices[7].net == Sum(Nets(sorted)[7..])
          && slices[7].name == Digits(|sorted| - 7) + " others"
  {
    hide Rounded;
    if |sorted| <= TOP {
      OwnRowCount(slices);
    } else {
      OwnRowCount(slices[..TOP]);
      assert slices == slices[..TOP] + [slices[TOP]];
    }
  }

  /** A side shows rows of its own sign only, and every row with a net of that sign stands in its list. */
  lemma SidesAreStrict(slices: seq<Slice>, sorted: seq<Entry>, entries: set<Entry>, positive: bool)
    requires RanksSide(slices, sorted, WithSign(entries, positive))
    ensures forall i :: 0 <= i < |slices| && i < 7 ==> if positive then slices[i].net > 0 else slices[i].net < 0
    ensures forall e :: e in sorted <==> e in entries && e.net != 0 && (e.net > 0 <==> positive)
  {
    SlicesStandForAllRows(slices, sorted);
    hide Composed, RowCount;
    assert forall e :: e in sorted <==> e in Elements(sorted);
    forall i | 0 <= i < |slices| && i < 7 ensures if positive then slices[i].net > 0 else slices[i].net < 0 {
      assert sorted[i] in sorted;
    }
  }

  /** Rows of equal magnitude are listed by name, and rows of equal names too by key. */
  lemma EqualRowsAreListedByName(sorted: seq<Entry>, i: nat, j: nat)
    requires Sorted(sorted, EntryBefore) && i < j < |sorted|
    requires Magnitude(sorted[i].net) == Magnitude(sorted[j].net)
    ensures !TextBefore(sorted[j].name, sorted[i].name)
    ensures sorted[i].name == sorted[j].name ==> TextBefore(sorted[i].key, sorted[j].key)
  {
    assert EntryBefore(sorted[i], sorted[j]);
    TextOrder(sorted[i].name, sorted[j].name, sorted[i].name);
    hide TextBefore;
  }

  // A period of a cross-tab -----------------------------------------------------------------------------------

  ghost function EntrySum(entries: set<Entry>): int
    decreases |entries|
  {
    if entries == {} then 0
    else
      var e :| e in entries;
      e.net + EntrySum(entries - {e})
  }

  lemma {:induction false} EntrySumPick(entries: set<Entry>, e: Entry)
    requires e in entries
    ensures EntrySum(entries) == e.net + EntrySum(entries - {e})
    decreases |entries|
  {
    var d :| d in entries && EntrySum(entries) == d.net + EntrySum(entries - {d});
    if d != e {
      EntrySumPick(entries - {d}, e);
      EntrySumPick(entries - {e}, d);
      assert entries - {d} - {e} == entries - {e} - {d};
    }
  }

  lemma SideStep(entries: set<Entry>, e: Entry, positive: bool)
    requires e in entries
    ensures EntrySum(WithSign(entries, positive)) ==
            EntrySum(WithSign(entries - {e}, positive)) + if (if positive then e.net > 0 else e.net < 0) then e.net
                else 0
  {
    hide EntrySum;
    if e in WithSign(entries, positive) {
      EntrySumPick(WithSign(entries, positive), e);
      assert WithSign(entries, positive) - {e} == WithSign(entries - {e}, positive);
    } else {
      assert WithSign(entries, positive) == WithSign(entries - {e}, positive);
    }
  }

  lemma {:induction false} EntrySumSplit(entries: set<Entry>)
    ensures EntrySum(entries) == EntrySum(WithSign(entries, false)) + EntrySum(WithSign(entries, true))
    decreases |entries|
  {
    if entries == {} {
      assert WithSign(entries, false) == {} && WithSign(entries, true) == {};
    } else {
      var e :| e in entries;
      hide EntrySum, WithSign;
      EntrySumSplit(entries - {e});
      EntrySumPick(entries, e);
      SideStep(entries, e, false);
      SideStep(entries, e, true);
    }
  }

  lemma {:induction false} SortedSum(sorted: seq<Entry>)
    requires Sorted(sorted, EntryBefore)
    ensures Sum(Nets(sorted)) == EntrySum(Elements(sorted))
  {
    if sorted == [] {
      assert Nets(sorted) == [] && Elements(sorted) == {};
    } else {
      var n := |sorted| - 1;
      var last := sorted[n];
      NotBeforeItself(last);
      hide EntryBefore, Sum, EntrySum;
      SortedSum(sorted[..n]);
      assert Nets(sorted) == Nets(sorted[..n]) + [last.net];
      SumAppend(Nets(sorted[..n]), last.net);
      assert sorted == sorted[..n] + [last] && last !in sorted[..n];
      assert Elements(sorted) - {last} == Elements(sorted[..n]);
      EntrySumPick(Elements(sorted), last);
    }
  }

  lemma NotBeforeItself(e: Entry)
    ensures !EntryBefore(e, e)
  {
    TextOrder(e.name, e.name, e.name);
    TextOrder(e.key, e.key, e.key);
  }

  /** The entries of one period: each key's net. */
  function EntriesOf(keys: set<Key>, cell: Key -> Cell, names: Key -> string): set<Entry> {
    set k | k in keys :: Entry(k, names(k), Net(cell(k)))
  }

  lemma NetAdds(a: Cell, b: Cell)
    ensures Net(Plus(a, b)) == Net(a) + Net(b)
  {
  }

  lemma {:induction false} EntriesAddUp(keys: set<Key>, cell: Key -> Cell, names: Key -> string)
    ensures EntrySum(EntriesOf(keys, cell, names)) == Net(KeySum(keys, cell))
    decreases |keys|
  {
    hide Plus;
    if keys == {} {
      assert EntriesOf(keys, cell, names) == {};
      KeySumEmpty(cell);
      NetOfNothing();
    } else {
      var k :| k in keys;
      var e := Entry(k, names(k), Net(cell(k)));
      EntriesAddUp(keys - {k}, cell, names);
      KeySumPick(keys, cell, k);
      NetAdds(cell(k), KeySum(keys - {k}, cell));
      assert EntriesOf(keys, cell, names) - {e} == EntriesOf(keys - {k}, cell, names);
      EntrySumPick(EntriesOf(keys, cell, names), e);
    }
  }

  lemma NetOfNothing()
    ensures Net(ZERO) == 0
  {
  }

  lemma RankedAddsUp(c: Composition, entries: set<Entry>)
    requires Ranked(c, entries)
    ensures Sum(SliceNets(c.spending)) + Sum(SliceNets(c.income)) == EntrySum(entries)
  {
    var spending :| RanksSide(c.spending, spending, WithSign(entries, false));
    var income :| RanksSide(c.income, income, WithSign(entries, true));
    hide Composed, EntryBefore, Sum, EntrySum, WithSign;
    ComposedNets(c.spending, spending);
    ComposedNets(c.income, income);
    SortedSum(spending);
    SortedSum(income);
    EntrySumSplit(entries);
  }

  /** In a computed table with every key collected, the spending and income slices of a period add up to the
  period's net. */
  lemma CompositionAddsUp(
    frame: FrameSpec, d: Dimension, r: FrameResult, ts: seq<Transaction>, p: nat, names: Key -> string, c: Composition)
    requires frame.series && FrameRight(frame, d, None, r, ts) && p < |frame.periods| && p < |r.totals|
    requires Ranked(c, EntriesOf(r.series.Keys, SeriesCell(r, p), names))
    ensures Sum(SliceNets(c.spending)) + Sum(SliceNets(c.income)) == Net(r.totals[p])
  {
    RankedAddsUp(c, EntriesOf(r.series.Keys, SeriesCell(r, p), names));
    EntriesAddUp(r.series.Keys, SeriesCell(r, p), names);
    SeriesAddUp(frame, d, r, ts, p);
    hide *;
  }

  lemma EntriesFit(frame: FrameSpec, d: Dimension, r: FrameResult, ts: seq<Transaction>, p: nat, names: Key -> string)
    requires frame.series && FrameRight(frame, d, None, r, ts) && FrameFits(frame, ts) && p < |frame.periods|
    ensures
      var entries := EntriesOf(r.series.Keys, SeriesCell(r, p), names);
      DistinctKeys(entries) && forall e :: e in entries ==> Fits(e.net)
  {
    forall k | k in r.series.Keys ensures Fits(Net(SeriesCell(r, p)(k))) {
      assert CellsRight(frame, d, k, r.series[k], ts);
      CellSumNarrows(ts, InSeries(frame.periods[p], d, k), InPeriod(frame.periods[p]));
      CellSumSigns(ts, InSeries(frame.periods[p], d, k));
      hide CellSum, InSeries, InPeriod;
    }
    hide SeriesCell, Net;
  }

  /** The composition of every period of a computed frame. */
  method Compositions(frame: FrameSpec, ghost d: Dimension, r: FrameResult, ghost ts: seq<Transaction>,
    names: Key -> string)
    returns (compositions: Option<seq<Composition>>)
    requires frame.series && FrameRight(frame, d, None, r, ts) && FrameFits(frame, ts) && |r.totals| == |frame.periods|
    ensures compositions.None? <==>
            exists p: nat :: p < |frame.periods| && SideOverflows(EntriesOf(r.series.Keys, SeriesCell(r, p), names))
    ensures compositions.Some? ==> |compositions.value| == |frame.periods|
    ensures compositions.Some? ==> forall p :: 0 <= p < |frame.periods| ==>
              && Ranked(compositions.value[p], EntriesOf(r.series.Keys, SeriesCell(r, p), names))
              && Sum(SliceNets(compositions.value[p].spending)) + Sum(SliceNets(compositions.value[p].income)) ==
                 Net(r.totals[p])
  {
    hide FrameRight, FrameFits, Ranked, SideOverflows, Sum, EntriesOf, SeriesCell, DistinctKeys, Net;
    var result: seq<Composition> := [];
    for p := 0 to |frame.periods|
      invariant |result| == p
      invariant forall q: nat :: q < p ==> !SideOverflows(EntriesOf(r.series.Keys, SeriesCell(r, q), names))
      invariant forall q :: 0 <= q < p ==>
        && Ranked(result[q], EntriesOf(r.series.Keys, SeriesCell(r, q), names))
        && Sum(SliceNets(result[q].spending)) + Sum(SliceNets(result[q].income)) == Net(r.totals[q])
    {
      EntriesFit(frame, d, r, ts, p, names);
      var composed, spending, income := ComposeEntries(EntriesOf(r.series.Keys, SeriesCell(r, p), names));
      if composed.None? {
        return None;
      }
      CompositionAddsUp(frame, d, r, ts, p, names, composed.value);
      result := result + [composed.value];
    }
    return Some(result);
  }
}

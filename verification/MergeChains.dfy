/** Merge chains and label allocation for merchants and categories.

A merged entity is retired and names its destination, so an old identifier leads to a live one
through a chain of retired entities.  The importers walk such chains with a bounded loop; this
module proves that the bound never cuts a walk short, on cyclic tables as well. */
module MergeChains {
  import opened Wrappers
  import Ranking

  type Id = string

  datatype Entity = Entity(text: string, key: string, retired: bool, destination: Option<Id>)

  type Table = map<Id, Entity>

  /** `path` follows merge destinations: every node but the last is retired and points to the next. */
  ghost predicate IsChain(t: Table, path: seq<Id>) {
    && |path| > 0
    && forall i :: 0 <= i < |path| - 1 ==>
      path[i] in t && t[path[i]].retired && t[path[i]].destination == Some(path[i + 1])
  }

  ghost predicate Active(t: Table, id: Id) {
    id in t && !t[id].retired
  }

  ghost predicate ChainTo(t: Table, path: seq<Id>, from: Id, to: Id) {
    IsChain(t, path) && path[0] == from && path[|path| - 1] == to && Active(t, to)
  }

  /** `from` is, or was merged step by step into, the active entity `to`. */
  ghost predicate LeadsTo(t: Table, from: Id, to: Id) {
    exists path :: ChainTo(t, path, from, to)
  }

  ghost predicate Extends(before: Table, after: Table) {
    forall id :: id in before ==> id in after && after[id] == before[id]
  }

  function ActiveKeys(t: Table): set<string> {
    set id | id in t && !t[id].retired :: t[id].key
  }

  /** No two active entities share a collision key. */
  ghost predicate DistinctKeys(t: Table) {
    forall a, b :: a in t && b in t && a != b && !t[a].retired && !t[b].retired ==> t[a].key != t[b].key
  }

  /** What merging `from` into `to` makes of a table: `from` is retired, and whatever was merged into it earlier
  is now merged into `to`. */
  function Merged(t: Table, from: Id, to: Id): Table {
    map id | id in t ::
      if id == from then t[id].(retired := true, destination := Some(to))
      else if t[id].destination == Some(from) then t[id].(destination := Some(to))
      else t[id]
  }

  /** A merge redirects what led to the merged entity, and nothing else. */
  lemma MergeRedirects(t: Table, from: Id, to: Id, x: Id, y: Id)
    requires Active(t, from) && Active(t, to) && from != to && LeadsTo(t, x, y)
    ensures LeadsTo(Merged(t, from, to), x, if y == from then to else y)
  {
    var path :| ChainTo(t, path, x, y);
    var last := |path| - 1;
    forall i | 0 <= i < last ensures path[i] != from && path[i] in t && t[path[i]].destination == Some(path[i + 1]) {
      assert t[path[i]].retired;
    }
    if y != from {
      assert ChainTo(Merged(t, from, to), path, x, y);
    } else if last == 0 {
      assert ChainTo(Merged(t, from, to), [from, to], x, to);
    } else {
      var redirected := path[..last] + [to];
      var after := Merged(t, from, to);
      forall i | 0 <= i < |redirected| - 1
        ensures redirected[i] in after && after[redirected[i]].retired
        ensures after[redirected[i]].destination == Some(redirected[i + 1])
      {
        assert redirected[i] == path[i];
      }
      assert ChainTo(Merged(t, from, to), redirected, x, to);
    }
  }

  // Two chains with the same start agree as far as both go.
  lemma {:induction false} ChainsAgree(t: Table, p: seq<Id>, q: seq<Id>, i: nat)
    requires IsChain(t, p) && IsChain(t, q) && p[0] == q[0]
    requires i < |p| && i < |q|
    ensures p[i] == q[i]
  {
    if i > 0 {
      ChainsAgree(t, p, q, i - 1);
      assert t[p[i - 1]].destination == Some(p[i]);
      assert t[q[i - 1]].destination == Some(q[i]);
    }
  }

  // After a repeated node a chain keeps repeating, so it can never end in an active entity.
  lemma {:induction false} RepeatsForward(t: Table, p: seq<Id>, i: nat, j: nat, d: nat)
    requires IsChain(t, p) && i < j && j + d < |p| && p[i] == p[j]
    ensures p[i + d] == p[j + d]
  {
    if d > 0 {
      RepeatsForward(t, p, i, j, d - 1);
      assert t[p[i + d - 1]].destination == Some(p[i + d]);
      assert t[p[j + d - 1]].destination == Some(p[j + d]);
    }
  }

  lemma {:induction false} DistinctCardinality(p: seq<Id>)
    requires forall i, j :: 0 <= i < j < |p| ==> p[i] != p[j]
    ensures |set x | x in p| == |p|
  {
    if p != [] {
      var rest := p[..|p| - 1];
      DistinctCardinality(rest);
      assert (set x | x in p) == (set x | x in rest) + {p[|p| - 1]};
    } else {
      assert (set x | x in p) == {};
    }
  }

  // Pigeonhole: a chain that ends in an active entity visits each table entry at most once.
  lemma ActiveChainIsShort(t: Table, path: seq<Id>, from: Id, to: Id)
    requires ChainTo(t, path, from, to)
    ensures |path| <= |t|
  {
    forall i, j | 0 <= i < j < |path| ensures path[i] != path[j] {
      if path[i] == path[j] {
        RepeatsForward(t, path, i, j, |path| - 1 - j);
        assert false;
      }
    }
    DistinctCardinality(path);
    Ranking.SubsetSize((set x | x in path), t.Keys);
  }

  /** A table leads each identifier to at most one active entity. */
  lemma LeadsToUnique(t: Table, from: Id, a: Id, b: Id)
    requires LeadsTo(t, from, a) && LeadsTo(t, from, b)
    ensures a == b
  {
    var p :| ChainTo(t, p, from, a);
    var q :| ChainTo(t, q, from, b);
    if |p| < |q| {
      ChainsAgree(t, p, q, |p| - 1);
      assert false;
    } else if |q| < |p| {
      ChainsAgree(t, p, q, |q| - 1);
      assert false;
    } else {
      ChainsAgree(t, p, q, |p| - 1);
    }
  }

  /** Adding entities never redirects an existing chain. */
  lemma LeadsToMonotone(before: Table, after: Table, from: Id, to: Id)
    requires Extends(before, after) && LeadsTo(before, from, to)
    ensures LeadsTo(after, from, to)
  {
    var p :| ChainTo(before, p, from, to);
    assert ChainTo(after, p, from, to);
  }

  lemma ActiveLeadsToItself(t: Table, id: Id)
    requires Active(t, id)
    ensures LeadsTo(t, id, id)
  {
    assert ChainTo(t, [id], id, id);
  }

  // A walk that stopped at a dead end, or that spent its fuel, proves there is no active end.
  lemma DeadWalk(t: Table, walked: seq<Id>, from: Id, to: Id)
    requires IsChain(t, walked) && walked[0] == from
    requires
      var last := walked[|walked| - 1];
      last !in t || (t[last].retired && (t[last].destination.None? || |walked| > |t|))
    ensures !LeadsTo(t, from, to)
  {
    if LeadsTo(t, from, to) {
      var p :| ChainTo(t, p, from, to);
      ActiveChainIsShort(t, p, from, to);
      if |p| <= |walked| {
        ChainsAgree(t, p, walked, |p| - 1);
      } else {
        assert t[p[|walked| - 1]].destination == Some(p[|walked|]);
        ChainsAgree(t, p, walked, |walked| - 1);
      }
    }
  }

  /** The walk of the CSV importer: leave the loop at an unknown entity or a retired one without a
  destination.  It succeeds exactly when a chain to an active entity exists. */
  method ActiveDestination(t: Table, from: Id) returns (r: Option<Id>)
    ensures r.Some? ==> LeadsTo(t, from, r.value)
    ensures r.None? ==> forall to :: !LeadsTo(t, from, to)
  {
    var id := from;
    ghost var walked := [from];
    var steps := 0;
    while steps < |t| + 1
      invariant IsChain(t, walked) && walked[0] == from && walked[|walked| - 1] == id
      invariant |walked| == steps + 1 <= |t| + 2
      invariant forall p, to :: |p| <= steps ==> !ChainTo(t, p, from, to)
    {
      if id !in t {
        forall to ensures !LeadsTo(t, from, to) { DeadWalk(t, walked, from, to); }
        return None;
      }
      if !t[id].retired {
        assert ChainTo(t, walked, from, id);
        return Some(id);
      }
      if t[id].destination.None? {
        forall to ensures !LeadsTo(t, from, to) { DeadWalk(t, walked, from, to); }
        return None;
      }
      forall p, to | |p| == steps + 1 ensures !ChainTo(t, p, from, to) {
        if ChainTo(t, p, from, to) {
          ChainsAgree(t, p, walked, steps);
        }
      }
      id := t[id].destination.value;
      walked := walked + [id];
      steps := steps + 1;
    }
    forall to ensures !LeadsTo(t, from, to) {
      if LeadsTo(t, from, to) {
        var p :| ChainTo(t, p, from, to);
        ActiveChainIsShort(t, p, from, to);
      }
    }
    return None;
  }

  /** The walk of the Amazon importer: a retired entity without a destination is looked up again
  until the fuel runs out, and every failure gives the fallback. */
  method ActiveDestinationOr(t: Table, from: Id, fallback: Id) returns (r: Id)
    ensures LeadsTo(t, from, r) || (r == fallback && forall to :: !LeadsTo(t, from, to))
  {
    var requested := from;
    ghost var walked := [from];
    for steps := 0 to |t| + 1
      invariant IsChain(t, walked) && walked[0] == from && walked[|walked| - 1] == requested
      invariant |walked| == steps + 1 || (requested in t && t[requested].retired && t[requested].destination.None?)
      invariant |walked| <= steps + 1
    {
      if requested !in t {
        break;
      }
      if !t[requested].retired {
        assert ChainTo(t, walked, from, requested);
        return requested;
      }
      if t[requested].destination.Some? {
        requested := t[requested].destination.value;
        walked := walked + [requested];
      }
    }
    forall to ensures !LeadsTo(t, from, to) {
      if requested in t {
        SpentWalk(t, walked, from, to);
      } else {
        DeadWalk(t, walked, from, to);
      }
    }
    return fallback;
  }

  lemma SpentWalk(t: Table, walked: seq<Id>, from: Id, to: Id)
    requires IsChain(t, walked) && walked[0] == from
    requires
      var last := walked[|walked| - 1];
      |walked| > |t| + 1 || (last in t && t[last].retired && t[last].destination.None?)
    ensures !LeadsTo(t, from, to)
  {
    var last := walked[|walked| - 1];
    if |walked| > |t| + 1 {
      var shorter := walked[..|walked| - 1];
      assert t[shorter[|shorter| - 1]].retired;
      assert IsChain(t, shorter);
      DeadWalk(t, shorter, from, to);
    } else {
      DeadWalk(t, walked, from, to);
    }
  }

  // Label allocation ------------------------------------------------------------------------

  const SEPARATOR := " · "
  const DIGEST_LENGTH := 64

  /** The label with a digest prefix of the given length appended. */
  function Suffixed(text: string, material: string, length: nat): string
    requires length <= |material|
  {
    text + SEPARATOR + material[..length]
  }

  datatype Allocation = Allocation(text: string, key: string, unsuffixed: bool)

  ghost predicate SuffixLength(length: int) {
    4 <= length <= DIGEST_LENGTH && length % 2 == 0
  }

  /** `length` is the first digest prefix whose collision key is free. */
  ghost predicate FirstFree(
    text: string, material: string, reserved: set<string>, collisionKey: string -> Option<string>, length: nat)
    requires |material| == DIGEST_LENGTH
  {
    && SuffixLength(length)
    && collisionKey(Suffixed(text, material, length)).Some?
    && collisionKey(Suffixed(text, material, length)).value !in reserved
    && AllReserved(text, material, reserved, collisionKey, length)
  }

  /** Every digest prefix shorter than `limit` gives a reserved key. */
  ghost predicate AllReserved(
    text: string, material: string, reserved: set<string>, collisionKey: string -> Option<string>, limit: nat)
    requires |material| == DIGEST_LENGTH
  {
    forall n: nat :: n < limit && SuffixLength(n) ==>
      && collisionKey(Suffixed(text, material, n)).Some?
      && collisionKey(Suffixed(text, material, n)).value in reserved
  }

  /** `chosen` is the plain text if its key is free, else its shortest free suffixed form, else the form
  with the whole digest. */
  ghost predicate Chosen(
    text: string, material: string, reserved: set<string>, collisionKey: string -> Option<string>, chosen: string)
    requires |material| == DIGEST_LENGTH
  {
    && collisionKey(text).Some?
    && if collisionKey(text).value !in reserved then chosen == text
       else exists n :: chosen == Form(text, material, n) && ChosenLength(text, material, reserved, collisionKey, n)
  }

  ghost function Form(text: string, material: string, n: nat): string
    requires |material| == DIGEST_LENGTH
  {
    if n <= DIGEST_LENGTH then Suffixed(text, material, n) else text
  }

  ghost predicate ChosenLength(
    text: string, material: string, reserved: set<string>, collisionKey: string -> Option<string>, n: nat)
    requires |material| == DIGEST_LENGTH
  {
    && SuffixLength(n)
    && (FirstFree(text, material, reserved, collisionKey, n)
        || (n == DIGEST_LENGTH && AllReserved(text, material, reserved, collisionKey, DIGEST_LENGTH + 1)))
  }

  /** The label, or one of its suffixed forms, has no collision key. */
  ghost predicate Unnameable(text: string, collisionKey: string -> Option<string>) {
    || collisionKey(text).None?
    || exists material, n ::
       |material| == DIGEST_LENGTH && SuffixLength(n) && collisionKey(Suffixed(text, material, n)).None?
  }

  lemma KeylessIsUnnameable(text: string, collisionKey: string -> Option<string>)
    requires collisionKey(text).None?
    ensures Unnameable(text, collisionKey)
  {
  }

  /** The allocated key is free if and only if the plain label or one of the 31 suffixed labels was
  free; the shortest free form is chosen. */
  method AllocateLabel(
    text: string, material: string, reserved: set<string>, collisionKey: string -> Option<string>)
    returns (r: Option<Allocation>)
    requires |material| == DIGEST_LENGTH
    ensures r.Some? ==> collisionKey(r.value.text) == Some(r.value.key)
    ensures r.Some? ==> Chosen(text, material, reserved, collisionKey, r.value.text)
    ensures r.Some? ==> (r.value.unsuffixed <==> collisionKey(text).value !in reserved)
    ensures r.None? ==> Unnameable(text, collisionKey)
    ensures r.Some? ==>
      (r.value.key in reserved <==>
       collisionKey(text).value in reserved &&
       AllReserved(text, material, reserved, collisionKey, DIGEST_LENGTH + 1))
  {
    var base := collisionKey(text);
    if base.None? {
      return None;
    }
    if base.value !in reserved {
      return Some(Allocation(text, base.value, true));
    }
    var length := 4;
    var candidate, key := text, base.value;
    while length <= DIGEST_LENGTH
      invariant 4 <= length <= DIGEST_LENGTH + 2 && length % 2 == 0
      invariant AllReserved(text, material, reserved, collisionKey, length)
      invariant length > 4 ==>
        candidate == Suffixed(text, material, length - 2) && collisionKey(candidate) == Some(key) && key in reserved
    {
      candidate := Suffixed(text, material, length);
      var suffixed := collisionKey(candidate);
      assert SuffixLength(length);
      if suffixed.None? {
        return None;
      }
      key := suffixed.value;
      if key !in reserved {
        assert FirstFree(text, material, reserved, collisionKey, length);
        assert candidate == Form(text, material, length)
            && ChosenLength(text, material, reserved, collisionKey, length);
        return Some(Allocation(candidate, key, false));
      }
      length := length + 2;
    }
    assert SuffixLength(DIGEST_LENGTH);
    assert candidate == Form(text, material, DIGEST_LENGTH)
        && ChosenLength(text, material, reserved, collisionKey, DIGEST_LENGTH);
    return Some(Allocation(candidate, key, false));
  }
}

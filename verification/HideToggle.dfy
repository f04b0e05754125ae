/** Hiding transactions: toggles in the journal, their cancellation by parity, and what a replay of the
rewritten journal shows. */
module HideToggle {
  import opened Wrappers
  import opened Ranking

  /** Transaction identifiers, numbered in the order of their texts; the empty text is number 0. */
  type Id = nat

  const EMPTY_ID: Id := 0

  /** A transaction's visibility, and everything else about it. */
  datatype Row = Row(hidden: bool, facts: int)

  type Rows = map<Id, Row>

  /** Journal operations: hide toggles, deletions, and edits that neither read nor change visibility. */
  datatype Operation = Toggle(targets: seq<Id>) | Delete(targets: seq<Id>) | Edit(code: int)

  /** The effect of an edit on one transaction's other facts. */
  type Effect = (int, Id, int) -> int

  function ToggleAll(rows: Rows, ids: set<Id>): Rows {
    map id | id in rows :: if id in ids then rows[id].(hidden := !rows[id].hidden) else rows[id]
  }

  function Ids(targets: seq<Id>): set<Id> {
    set id | id in targets
  }

  predicate Present(rows: Rows, targets: seq<Id>) {
    forall id :: id in targets ==> id in rows
  }

  /** Targets of an operation are distinct and, when it is applied, present. */
  function Apply(rows: Rows, op: Operation, effect: Effect): Option<Rows> {
    match op
    case Toggle(targets) => if Present(rows, targets) then Some(ToggleAll(rows, Ids(targets))) else None
    case Delete(targets) => if Present(rows, targets) then Some(rows - Ids(targets)) else None
    case Edit(code) => Some(map id | id in rows :: rows[id].(facts := effect(code, id, rows[id].facts)))
  }

  function Replay(rows: Rows, ops: seq<Operation>, effect: Effect): Option<Rows> {
    if ops == [] then Some(rows)
    else
      var before := Replay(rows, ops[..|ops| - 1], effect);
      if before.None? then None else Apply(before.value, ops[|ops| - 1], effect)
  }

  // Parity ------------------------------------------------------------------------------------------------

  /** Whether an odd number of the operations toggle the transaction. */
  function Odd(ops: seq<Operation>, id: Id): bool {
    if ops == [] then false
    else
      var last, rest := ops[|ops| - 1], Odd(ops[..|ops| - 1], id);
      if last.Toggle? && id in last.targets then !rest else rest
  }

  ghost function OddAmong(ops: seq<Operation>, targets: set<Id>): set<Id> {
    set id | id in targets && Odd(ops, id)
  }

  // Cancellation --------------------------------------------------------------------------------------------

  function Remaining(targets: seq<Id>, cancelled: set<Id>): seq<Id> {
    if targets == [] then []
    else
      var last, rest := targets[|targets| - 1], Remaining(targets[..|targets| - 1], cancelled);
      if last in cancelled then rest else rest + [last]
  }

  /** The journal without the cancelled targets; toggles left empty are removed. */
  function Without(ops: seq<Operation>, cancelled: set<Id>): seq<Operation> {
    if ops == [] then []
    else
      var last, rest := ops[|ops| - 1], Without(ops[..|ops| - 1], cancelled);
      if last.Toggle? then
        var left := Remaining(last.targets, cancelled);
        if left == [] then rest else rest + [Toggle(left)]
      else rest + [last]
  }

  lemma {:induction false} RemainingIds(targets: seq<Id>, cancelled: set<Id>)
    ensures Ids(Remaining(targets, cancelled)) == Ids(targets) - cancelled
  {
    if targets != [] {
      RemainingIds(targets[..|targets| - 1], cancelled);
      var last := targets[|targets| - 1];
      assert Ids(targets) == Ids(targets[..|targets| - 1]) + {last};
      if last !in cancelled {
        var rest := Remaining(targets[..|targets| - 1], cancelled);
        assert Ids(rest + [last]) == Ids(rest) + {last};
      }
    }
  }

  lemma ReplayAppend(rows: Rows, ops: seq<Operation>, op: Operation, effect: Effect)
    ensures Replay(rows, ops + [op], effect) ==
            if Replay(rows, ops, effect).None? then None else Apply(Replay(rows, ops, effect).value, op, effect)
  {
    assert (ops + [op])[..|ops|] == ops;
  }

  lemma PresentIds(rows: Rows, targets: seq<Id>)
    ensures Present(rows, targets) <==> Ids(targets) <= rows.Keys
  {
    assert forall id :: id in targets <==> id in Ids(targets);
    if Present(rows, targets) {
      forall id | id in Ids(targets) ensures id in rows.Keys {
      }
    }
  }

  // Toggling commutes with applying one operation, up to the cancelled part of that operation.
  lemma ApplyToggled(rows: Rows, op: Operation, ids: set<Id>, effect: Effect)
    requires !op.Toggle? && Apply(rows, op, effect).Some?
    ensures Apply(ToggleAll(rows, ids), op, effect) == Some(ToggleAll(Apply(rows, op, effect).value, ids))
  {
    var after := Apply(rows, op, effect).value;
    assert ToggleAll(rows, ids).Keys == rows.Keys;
    if op.Delete? {
      assert ToggleAll(rows, ids) - Ids(op.targets) == ToggleAll(after, ids);
    } else {
      assert Apply(ToggleAll(rows, ids), op, effect).value == ToggleAll(after, ids);
    }
  }

  lemma TogglesCombine(rows: Rows, a: set<Id>, b: set<Id>)
    ensures ToggleAll(ToggleAll(rows, a), b) == ToggleAll(rows, (a - b) + (b - a))
  {
    var twice, once := ToggleAll(ToggleAll(rows, a), b), ToggleAll(rows, (a - b) + (b - a));
    assert twice.Keys == rows.Keys == once.Keys;
    forall id | id in rows ensures twice[id] == once[id] {
      assert id in (a - b) + (b - a) <==> (id in a) != (id in b);
    }
  }

  /** Replaying a journal prefix without the cancelled targets gives the present state with exactly the
  oddly toggled targets flipped, for every prefix and every target set. */
  lemma {:induction false} CancellationIsParity(rows: Rows, ops: seq<Operation>, cancelled: set<Id>, effect: Effect)
    requires Replay(rows, ops, effect).Some?
    ensures Replay(rows, Without(ops, cancelled), effect) ==
            Some(ToggleAll(Replay(rows, ops, effect).value, OddAmong(ops, cancelled)))
  {
    if ops == [] {
      assert ToggleAll(rows, {}) == rows;
      assert OddAmong(ops, cancelled) == {};
    } else {
      var rest, last := ops[..|ops| - 1], ops[|ops| - 1];
      assert ops == rest + [last];
      ReplayAppend(rows, rest, last, effect);
      CancellationIsParity(rows, rest, cancelled, effect);
      if last.Toggle? {
        hide *;
        assert last == Toggle(last.targets);
        CancelledToggle(rows, rest, last.targets, cancelled, effect);
      } else {
        OtherStep(rest, last, cancelled);
        hide *;
        ReplayAppend(rows, Without(rest, cancelled), last, effect);
        ApplyToggled(Replay(rows, rest, effect).value, last, OddAmong(rest, cancelled), effect);
      }
    }
  }

  lemma OtherStep(rest: seq<Operation>, last: Operation, cancelled: set<Id>)
    requires !last.Toggle?
    ensures OddAmong(rest + [last], cancelled) == OddAmong(rest, cancelled)
    ensures Without(rest + [last], cancelled) == Without(rest, cancelled) + [last]
  {
    assert (rest + [last])[..|rest|] == rest;
  }

  // The step for a toggle: its uncancelled part is replayed, its cancelled part changes the parity.
  lemma CancelledToggle(rows: Rows, rest: seq<Operation>, targets: seq<Id>, cancelled: set<Id>, effect: Effect)
    requires Replay(rows, rest + [Toggle(targets)], effect).Some? && Replay(rows, rest, effect).Some?
    requires Replay(rows, Without(rest, cancelled), effect) ==
             Some(ToggleAll(Replay(rows, rest, effect).value, OddAmong(rest, cancelled)))
    ensures
      var ops := rest + [Toggle(targets)];
      Replay(rows, Without(ops, cancelled), effect) ==
      Some(ToggleAll(Replay(rows, ops, effect).value, OddAmong(ops, cancelled)))
  {
    var ops := rest + [Toggle(targets)];
    var before, odd := Replay(rows, rest, effect).value, OddAmong(rest, cancelled);
    assert ops[..|rest|] == rest;
    ReplayAppend(rows, rest, Toggle(targets), effect);
    PresentIds(before, targets);
    RemainingIds(targets, cancelled);
    var left, all := Remaining(targets, cancelled), Ids(targets);
    OddStep(rest, targets, cancelled);
    hide Replay, Without, OddAmong, Odd, Remaining;
    TogglesCombine(before, all, OddAmong(ops, cancelled));
    TogglesCombine(before, odd, Ids(left));
    var c := OddAmong(ops, cancelled);
    assert (all - c) + (c - all) == (odd - Ids(left)) + (Ids(left) - odd);
    WithoutToggle(rest, targets, cancelled);
    PresentIds(ToggleAll(before, odd), left);
    ReplayAppend(rows, Without(rest, cancelled), Toggle(left), effect);
    if left == [] {
      assert Ids(left) == {};
      assert (odd - Ids(left)) + (Ids(left) - odd) == odd;
    }
  }

  lemma OddStep(rest: seq<Operation>, targets: seq<Id>, cancelled: set<Id>)
    ensures forall id :: id in OddAmong(rest + [Toggle(targets)], cancelled) <==>
                         id in cancelled && (id in OddAmong(rest, cancelled)) != (id in Ids(targets))
    ensures OddAmong(rest, cancelled) <= cancelled
  {
    assert (rest + [Toggle(targets)])[..|rest|] == rest;
  }

  lemma WithoutToggle(rest: seq<Operation>, targets: seq<Id>, cancelled: set<Id>)
    ensures Without(rest + [Toggle(targets)], cancelled) ==
            Without(rest, cancelled) + if Remaining(targets, cancelled) == [] then []
                else [Toggle(Remaining(targets, cancelled))]
  {
    assert (rest + [Toggle(targets)])[..|rest|] == rest;
  }

  // The program -----------------------------------------------------------------------------------------------

  /** A plan hides or shows: by cancelling earlier toggles, or by one new toggle. */
  datatype Plan = Cancel(targets: seq<Id>, hides: bool) | NewToggle(targets: seq<Id>, hides: bool)

  ghost predicate FlipsRight(flips: map<Id, bool>, ops: seq<Operation>) {
    forall id :: (id in flips && flips[id]) <==> Odd(ops, id)
  }

  ghost predicate Distinct(targets: seq<Id>) {
    forall i, j :: 0 <= i < j < |targets| ==> targets[i] != targets[j]
  }

  /** Stored operations name each target once. */
  ghost predicate Stored(ops: seq<Operation>) {
    forall i :: 0 <= i < |ops| && ops[i].Toggle? ==> Distinct(ops[i].targets)
  }

  /** Flips one toggle's targets that `wanted` admits. */
  method FlipTargets(flips: map<Id, bool>, targets: seq<Id>, wanted: Option<set<Id>>) returns (after: map<Id, bool>)
    requires Distinct(targets)
    ensures forall id ::
      (id in after && after[id]) <==>
      (id in flips && flips[id]) != (id in targets && (wanted.None? || id in wanted.value))
  {
    after := flips;
    for i := 0 to |targets|
      invariant forall id ::
        (id in after && after[id]) <==>
        (id in flips && flips[id]) != (id in targets[..i] && (wanted.None? || id in wanted.value))
    {
      var id := targets[i];
      assert id !in targets[..i];
      assert targets[..i + 1] == targets[..i] + [id];
      if wanted.None? || id in wanted.value {
        after := after[id := !(id in after && after[id])];
      }
    }
    assert targets[..|targets|] == targets;
  }

  /** Cancelling must reverse every target: each has an odd number of pending toggles. */
  method CanCancelHide(ops: seq<Operation>, targets: seq<Id>) returns (r: bool)
    requires Stored(ops)
    ensures r <==> forall id :: id in targets ==> Odd(ops, id)
  {
    var flips: map<Id, bool> := map[];
    for i := 0 to |ops|
      invariant FlipsRight(flips, ops[..i])
    {
      assert ops[..i + 1][..i] == ops[..i];
      if ops[i].Toggle? {
        flips := FlipTargets(flips, ops[i].targets, None);
      }
    }
    assert ops[..|ops|] == ops;
    for i := 0 to |targets|
      invariant forall k :: 0 <= k < i ==> Odd(ops, targets[k])
    {
      var id := targets[i];
      if !(id in flips && flips[id]) {
        assert !Odd(ops, id) && id in targets;
        return false;
      }
    }
    return true;
  }

  ghost predicate AllHidden(rows: Rows, targets: seq<Id>, hidden: bool) {
    forall id :: id in targets ==> id in rows && rows[id].hidden == hidden
  }

  // A scope with fewer visible members than targets has a hidden target.
  lemma MixedScope(rows: Rows, targets: seq<Id>, visible: seq<Id>)
    requires Distinct(targets) && |visible| < |targets| && Present(rows, targets)
    requires forall id :: id in visible <==> id in targets && !rows[id].hidden
    ensures !AllHidden(rows, targets, false)
  {
    DistinctElements(targets);
    ElementsSize(visible);
    var id := SmallerMisses(Elements(targets), Elements(visible));
    assert id in targets && id !in visible;
  }

  lemma SmallerMisses<T>(a: set<T>, b: set<T>) returns (x: T)
    requires |b| < |a|
    ensures x in a && x !in b
  {
    if a <= b {
      SubsetSize(a, b);
      assert false;
    }
    x :| x in a && x !in b;
  }

  lemma {:induction false} DistinctElements(s: seq<Id>)
    requires Distinct(s)
    ensures |Elements(s)| == |s|
  {
    if s != [] {
      var n := |s| - 1;
      DistinctElements(s[..n]);
      assert s == s[..n] + [s[n]];
      assert Elements(s) == Elements(s[..n]) + {s[n]};
      assert s[n] !in s[..n];
    }
  }

  /** Visible members of a mixed scope are hidden; a uniform scope is toggled, by cancellation when that
  reverses every target. */
  method BuildHideMutation(rows: Rows, ops: seq<Operation>, targets: seq<Id>) returns (plan: Option<Plan>)
    requires Stored(ops) && Distinct(targets) && Present(rows, targets)
    ensures plan.None? <==> targets == []
    ensures plan.Some? ==> plan.value.hides == !AllHidden(rows, targets, true)
    ensures plan.Some? ==>
              (plan.value.Cancel? <==> AllHidden(rows, targets, !plan.value.hides) && forall id :: id in targets ==>
                  Odd(ops, id))
    ensures plan.Some? && plan.value.Cancel? ==> plan.value.targets == targets
    ensures plan.Some? && plan.value.NewToggle? ==>
              Distinct(plan.value.targets)
              && (forall id :: id in plan.value.targets <==> id in targets && rows[id].hidden != plan.value.hides)
  {
    if targets == [] {
      return None;
    }
    var visible := [];
    for i := 0 to |targets|
      invariant Distinct(visible) && |visible| <= i
      invariant forall id :: id in visible <==> id in targets[..i] && !rows[id].hidden
      invariant |visible| == i ==> visible == targets[..i]
    {
      assert targets[..i + 1] == targets[..i] + [targets[i]];
      var id := targets[i];
      assert id in targets && id in rows;
      if !rows[id].hidden {
        assert id !in targets[..i];
        visible := visible + [id];
      }
    }
    assert targets[..|targets|] == targets;
    var hides := |visible| > 0;
    assert forall id :: id in visible ==> id in targets && !rows[id].hidden;
    if hides {
      ghost var first := visible[0];
      assert first in visible;
      assert first in targets && first in rows && !rows[first].hidden;
    } else {
      assert visible == [];
      assert forall id :: id in targets ==> id !in visible;
    }
    assert hides == !AllHidden(rows, targets, true);
    if |visible| > 0 && |visible| < |targets| {
      MixedScope(rows, targets, visible);
      return Some(NewToggle(visible, hides));
    }
    assert |visible| == |targets| ==> visible == targets;
    assert AllHidden(rows, targets, !hides);
    assert targets[0] in targets;
    var cancels := CanCancelHide(ops, targets);
    if cancels {
      return Some(Cancel(targets, hides));
    }
    return Some(NewToggle(targets, hides));
  }

  /** Removes the targets from every toggle and drops toggles left empty. */
  method DeleteTargets(ops: seq<Operation>, targets: seq<Id>) returns (r: seq<Operation>, removed: nat)
    ensures r == Without(ops, Ids(targets)) && |r| + removed == |ops|
  {
    r, removed := [], 0;
    for i := 0 to |ops|
      invariant r == Without(ops[..i], Ids(targets)) && |r| + removed == i
    {
      assert ops[..i + 1][..i] == ops[..i];
      if ops[i].Toggle? {
        var left := [];
        for k := 0 to |ops[i].targets|
          invariant left == Remaining(ops[i].targets[..k], Ids(targets))
        {
          assert ops[i].targets[..k + 1][..k] == ops[i].targets[..k];
          if ops[i].targets[k] !in targets {
            left := left + [ops[i].targets[k]];
          }
        }
        assert ops[i].targets[..|ops[i].targets|] == ops[i].targets;
        if left == [] {
          removed := removed + 1;
        } else {
          r := r + [Toggle(left)];
        }
      } else {
        r := r + [ops[i]];
      }
    }
    assert ops[..|ops|] == ops;
  }

  // The store ---------------------------------------------------------------------------------------------------

  const LAST_REVISION := 0x7fff_ffff_ffff_ffff

  datatype Refusal = InvalidTargets | Corrupt | Conflict | NotCovered | Exhausted

  /** Targets of a cancellation are listed in strict order, none of them empty. */
  ghost predicate Listed(targets: seq<Id>) {
    && targets != [] && (forall i :: 0 <= i < |targets| ==> targets[i] != EMPTY_ID)
    && forall i, j :: 0 <= i < j < |targets| ==> targets[i] < targets[j]
  }

  method ValidateTargets(targets: seq<Id>) returns (ok: bool)
    ensures ok <==> Listed(targets)
  {
    if targets == [] {
      return false;
    }
    for i := 0 to |targets|
      invariant i > 0 ==> Listed(targets[..i])
    {
      if targets[i] == EMPTY_ID || (i > 0 && targets[i - 1] >= targets[i]) {
        return false;
      }
    }
    assert targets[..|targets|] == targets;
    return true;
  }

  predicate Covered(ops: seq<Operation>, id: Id) {
    exists i :: 0 <= i < |ops| && ops[i].Toggle? && id in ops[i].targets
  }

  // Counting the covered targets tells whether all are.
  lemma CoveredCount(ops: seq<Operation>, targets: seq<Id>)
    requires Listed(targets)
    ensures |set id | id in targets && Covered(ops, id)| == |targets| <==> forall id :: id in targets ==>
        Covered(ops, id)
  {
    hide Covered;
    var covered := set id | id in targets && Covered(ops, id);
    DistinctElements(targets);
    assert covered <= Elements(targets);
    SubsetSize(covered, Elements(targets));
    if forall id :: id in targets ==> Covered(ops, id) {
      assert covered == Elements(targets);
    } else {
      var id :| id in targets && !Covered(ops, id);
      assert id in Elements(targets) && id !in covered;
    }
  }

  /** The part of a profile that cancellations touch: the first `cursor` operations are active, the others can
  be redone. */
  class Journal {
    var revision: nat
    var cursor: int
    var operations: seq<Operation>

    constructor (revision: nat, cursor: int, operations: seq<Operation>)
      ensures this.revision == revision && this.cursor == cursor && this.operations == operations
    {
      this.revision, this.cursor, this.operations := revision, cursor, operations;
    }

    /** Stores a cancellation.  A refusal leaves everything as it was; a success forgets what could be redone,
    takes the targets out of every active toggle, drops toggles left empty and advances the revision by one. */
    method CancelHide(expected: nat, targets: seq<Id>) returns (r: Result<nat, Refusal>)
      modifies this
      ensures r.Success? <==>
                && Listed(targets) && 0 <= old(cursor) <= |old(operations)| && old(revision) == expected < LAST_REVISION
                && forall id :: id in targets ==> Covered(old(operations)[..old(cursor)], id)
      ensures r.Success? ==>
                && operations == Without(old(operations)[..old(cursor)], Ids(targets)) && cursor == |operations|
                && r.value == revision == expected + 1
      ensures r.Failure? ==> operations == old(operations) && cursor == old(cursor) && revision == old(revision)
      ensures r == Failure(InvalidTargets) <==> !Listed(targets)
      ensures r == Failure(Conflict) <==>
          Listed(targets) && 0 <= old(cursor) <= |old(operations)| && old(revision) != expected
      ensures r == Failure(NotCovered) ==> 0 <= old(cursor) <= |old(operations)| && exists id ::
          id in targets && !Covered(old(operations)[..old(cursor)], id)
      ensures r == Failure(Exhausted) ==> expected >= LAST_REVISION
    {
      hide Without, Covered;
      var valid := ValidateTargets(targets);
      if !valid {
        return Failure(InvalidTargets);
      }
      if cursor < 0 || cursor > |operations| {
        return Failure(Corrupt);
      }
      if revision != expected {
        return Failure(Conflict);
      }
      var active := operations[..cursor];
      CoveredCount(active, targets);
      if |set id | id in targets && Covered(active, id)| != |targets| {
        return Failure(NotCovered);
      }
      var left, removed := DeleteTargets(active, targets);
      if removed > cursor {
        return Failure(Corrupt);
      }
      if revision >= LAST_REVISION {
        return Failure(Exhausted);
      }
      operations, cursor, revision := left, cursor - removed, revision + 1;
      return Success(revision);
    }
  }

  /** The store never refuses the targets of a cancellation that the builder chose: each is covered. */
  lemma {:induction false} OddIsCovered(ops: seq<Operation>, id: Id)
    requires Odd(ops, id)
    ensures Covered(ops, id)
  {
    var n := |ops| - 1;
    if ops[n].Toggle? && id in ops[n].targets {
      assert Covered(ops, id);
    } else {
      OddIsCovered(ops[..n], id);
      var i :| 0 <= i < n && ops[..n][i].Toggle? && id in ops[..n][i].targets;
      assert ops[i].Toggle?;
    }
  }

  /** Previews a cancellation by folding the parity of the targets' toggles into the present rows. */
  method PreviewCancel(rows: Rows, ops: seq<Operation>, targets: seq<Id>) returns (after: Rows)
    requires Stored(ops)
    ensures after == ToggleAll(rows, OddAmong(ops, Ids(targets)))
  {
    var flips: map<Id, bool> := map[];
    for i := 0 to |ops|
      invariant forall id :: (id in flips && flips[id]) <==> id in Ids(targets) && Odd(ops[..i], id)
    {
      assert ops[..i + 1][..i] == ops[..i];
      if ops[i].Toggle? {
        flips := FlipTargets(flips, ops[i].targets, Some(Ids(targets)));
      }
    }
    assert ops[..|ops|] == ops;
    after := rows;
    var todo := rows.Keys;
    while todo != {}
      invariant todo <= rows.Keys && after.Keys == rows.Keys
      invariant forall id :: id in rows ==>
        after[id] == if id !in todo
            && id in OddAmong(ops, Ids(targets)) then rows[id].(hidden := !rows[id].hidden) else rows[id]
      decreases todo
    {
      ghost var some: Id := SomeElement(todo);
      var id :| id in todo;
      todo := todo - {id};
      if id in flips && flips[id] {
        after := after[id := after[id].(hidden := !after[id].hidden)];
      }
    }
    assert after.Keys == ToggleAll(rows, OddAmong(ops, Ids(targets))).Keys;
    assert forall id :: id in rows ==> after[id] == ToggleAll(rows, OddAmong(ops, Ids(targets)))[id];
  }

  /** The preview of a cancellation is the replay of the journal that the store leaves behind. */
  lemma PreviewIsReplay(committed: Rows, ops: seq<Operation>, targets: seq<Id>, effect: Effect, rows: Rows,
    preview: Rows)
    requires Replay(committed, ops, effect) == Some(rows)
    requires preview == ToggleAll(rows, OddAmong(ops, Ids(targets)))
    ensures Replay(committed, Without(ops, Ids(targets)), effect) == Some(preview)
  {
    CancellationIsParity(committed, ops, Ids(targets), effect);
  }

  /** What the journal becomes under a plan. */
  function Planned(ops: seq<Operation>, plan: Plan): seq<Operation> {
    match plan
    case Cancel(targets, _) => Without(ops, Ids(targets))
    case NewToggle(targets, _) => ops + [Toggle(targets)]
  }

  /** Whichever branch is taken, after replaying the new journal every target that was asked for is
  hidden exactly when the plan says it hides. */
  lemma EveryTargetEndsAsPlanned(committed: Rows, ops: seq<Operation>, targets: seq<Id>, effect: Effect, rows: Rows,
    plan: Plan)
    requires Replay(committed, ops, effect) == Some(rows) && Present(rows, targets)
    requires plan.hides == !AllHidden(rows, targets, true)
    requires plan.Cancel? ==>
               plan.targets == targets && (forall id :: id in targets ==> Odd(ops, id))
                   && AllHidden(rows, targets, !plan.hides)
    requires plan.NewToggle? ==> forall id :: id in plan.targets <==> id in targets && rows[id].hidden != plan.hides
    ensures Replay(committed, Planned(ops, plan), effect).Some?
    ensures AllHidden(Replay(committed, Planned(ops, plan), effect).value, targets, plan.hides)
  {
    match plan
    case Cancel(_, hides) =>
      CancellationIsParity(committed, ops, Ids(targets), effect);
      hide Replay, Without, Odd;
      forall id | id in targets ensures id in OddAmong(ops, Ids(targets)) {
      }
    case NewToggle(chosen, hides) =>
      ReplayAppend(committed, ops, Toggle(chosen), effect);
      hide Replay, Odd;
      assert Present(rows, chosen);
      forall id | id in targets ensures id in rows && ToggleAll(rows, Ids(chosen))[id].hidden == hides {
        assert id in Ids(chosen) <==> id in chosen;
      }
  }

  // What a replay shows -----------------------------------------------------------------------------------

  ghost predicate Deleted(ops: seq<Operation>, id: Id) {
    exists i :: 0 <= i < |ops| && ops[i].Delete? && id in ops[i].targets
  }

  /** Operation `i` needs a transaction that was never there, or that an earlier operation deleted. */
  ghost predicate Misses(rows: Rows, ops: seq<Operation>, i: nat)
    requires i < |ops|
  {
    !ops[i].Edit? && exists id :: id in ops[i].targets && (id !in rows || Deleted(ops[..i], id))
  }

  lemma DeletedStep(rest: seq<Operation>, last: Operation, id: Id)
    ensures Deleted(rest + [last], id) <==> Deleted(rest, id) || (last.Delete? && id in last.targets)
  {
    var ops := rest + [last];
    if Deleted(rest, id) {
      var i :| 0 <= i < |rest| && rest[i].Delete? && id in rest[i].targets;
      assert ops[i] == rest[i];
    }
    assert ops[|rest|] == last;
  }

  /** A replay leaves every transaction that no operation deleted, and hides it exactly when an odd number of toggles
  changed what it was; it fails exactly when an operation needs a transaction that is not there. */
  lemma {:induction false} ReplayMeans(rows: Rows, ops: seq<Operation>, effect: Effect)
    ensures
      var r := Replay(rows, ops, effect);
      && (r.None? <==> exists i :: 0 <= i < |ops| && Misses(rows, ops, i))
      && (r.Some? ==> forall id ::
            && (id in r.value <==> id in rows && !Deleted(ops, id))
            && (id in r.value ==> r.value[id].hidden == (rows[id].hidden != Odd(ops, id))))
  {
    if ops != [] {
      var rest, last := ops[..|ops| - 1], ops[|ops| - 1];
      assert ops == rest + [last];
      ReplayMeans(rows, rest, effect);
      forall i | 0 <= i < |rest| ensures Misses(rows, ops, i) <==> Misses(rows, rest, i) {
        assert ops[..i] == rest[..i] && ops[i] == rest[i];
      }
      forall id ensures Deleted(ops, id) <==> Deleted(rest, id) || (last.Delete? && id in last.targets) {
        DeletedStep(rest, last, id);
      }
      hide Deleted;
      var before := Replay(rows, rest, effect);
      if before.Some? {
        assert ops[..|rest|] == rest;
        assert Misses(rows, ops, |rest|) <==> !last.Edit? && !Present(before.value, last.targets);
      } else {
        var i :| 0 <= i < |rest| && Misses(rows, rest, i);
        assert Misses(rows, ops, i);
      }
    }
  }
}

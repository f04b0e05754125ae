/** Closing an instance while catalog calls, supervised work and API requests are in progress.

Each step is one critical section of the instance's mutex or one acquisition or release of its catalog
lock, a read-write lock.  `created` and `dropped` record supervisors, `told` the callers that were
answered ErrClosed; the program does not store these three. */
module InstanceShutdown {
  import opened Wrappers

  type ProfileId = string
  type CallId = nat
  type SupervisorId = nat

  /** A catalog call: waiting for its side of the lock, holding it, running under it, or over. */
  datatype Call = Waiting(shared: bool) | Holding(shared: bool) | Running(shared: bool) | Over(ran: bool)

  /** How far the one shutdown has come. */
  datatype Phase = Open | Closing | Collected | AtBarrier | Past

  datatype State = State(
    closed: bool, admitting: bool, phase: Phase,
    calls: map<CallId, Call>,
    supervisors: map<ProfileId, SupervisorId>, collected: set<SupervisorId>,
    created: set<SupervisorId>, dropped: set<SupervisorId>, told: bool)

  datatype Event =
    | CallStart(call: CallId, shared: bool)
    | CallAcquire(call: CallId)
    | CallCheck(call: CallId)
    | CallEnd(call: CallId)
    | Supervise(profile: ProfileId, next: SupervisorId)
    | Drop(profile: ProfileId)
    | Close
    | Collect
    | BarrierAcquire
    | BarrierRelease
    | Request

  predicate Uses(c: Call) {
    c.Holding? || c.Running?
  }

  /** A shared holder excludes the exclusive side, and an exclusive holder everyone. */
  predicate CanAcquire(s: State, shared: bool) {
    && s.phase != AtBarrier
    && forall c :: c in s.calls && Uses(s.calls[c]) ==> shared && s.calls[c].shared
  }

  predicate Enabled(s: State, e: Event) {
    match e
    case CallStart(c, _) => c !in s.calls
    case CallAcquire(c) => c in s.calls && s.calls[c].Waiting? && CanAcquire(s, s.calls[c].shared)
    case CallCheck(c) => c in s.calls && s.calls[c].Holding?
    case CallEnd(c) => c in s.calls && s.calls[c].Running?
    case Supervise(_, next) => next !in s.created
    case Collect => s.phase == Closing
    case BarrierAcquire => s.phase == Collected && CanAcquire(s, false)
    case BarrierRelease => s.phase == AtBarrier
    case _ => true
  }

  /** A new supervisor is created only for an open instance and a profile without one. */
  function SuperviseStep(s: State, p: ProfileId, next: SupervisorId): (State, Option<SupervisorId>) {
    if s.closed then (s.(told := true), None)
    else if p in s.supervisors then (s, Some(s.supervisors[p]))
    else (s.(supervisors := s.supervisors[p := next], created := s.created + {next}), Some(next))
  }

  function DropStep(s: State, p: ProfileId): State {
    if p in s.supervisors then s.(supervisors := s.supervisors - {p}, dropped := s.dropped + {s.supervisors[p]}) else s
  }

  /** Close stops admission before any call can see the instance closed; a second Close is refused. */
  function CloseStep(s: State): (State, bool) {
    if s.closed then (s.(told := true), false) else (s.(admitting := false, closed := true, phase := Closing), true)
  }

  function Apply(s: State, e: Event): State
    requires Enabled(s, e)
  {
    match e
    case CallStart(c, shared) => s.(calls := s.calls[c := Waiting(shared)])
    case CallAcquire(c) => s.(calls := s.calls[c := Holding(s.calls[c].shared)])
    case CallCheck(c) =>
      if s.closed then s.(calls := s.calls[c := Over(false)], told := true)
      else s.(calls := s.calls[c := Running(s.calls[c].shared)])
    case CallEnd(c) => s.(calls := s.calls[c := Over(true)])
    case Supervise(p, next) => SuperviseStep(s, p, next).0
    case Drop(p) => DropStep(s, p)
    case Close => CloseStep(s).0
    case Collect => s.(closed := true, collected := s.supervisors.Values, phase := Collected)
    case BarrierAcquire => s.(phase := AtBarrier)
    case BarrierRelease => s.(phase := Past)
    case Request => s
  }

  /** Whether an API request is admitted. */
  predicate Admits(s: State) {
    s.admitting
  }

  ghost predicate Inv(s: State) {
    && (s.closed <==> s.phase != Open)
    && (s.closed ==> !s.admitting) && (s.told ==> s.closed)
    && (s.phase == AtBarrier || s.phase == Past ==> forall c :: c in s.calls ==> !s.calls[c].Running?)
    && (s.phase == AtBarrier ==> forall c :: c in s.calls ==> !Uses(s.calls[c]))
    && (forall c :: c in s.calls && s.calls[c] == Over(false) ==> s.told)
    && (forall x :: x in s.supervisors.Values ==> x in s.created)
    && (forall x :: x in s.created ==>
          x in s.dropped || x in s.supervisors.Values)
    && (s.phase != Open && s.phase != Closing ==> forall x :: x in s.created ==> x in s.dropped || x in s.collected)
    && (forall c, d :: c in s.calls && d in s.calls && Uses(s.calls[c]) && Uses(s.calls[d]) && c != d ==>
          s.calls[c].shared && s.calls[d].shared)
  }

  ghost predicate Initial(s: State) {
    s == State(false, true, Open, map[], map[], {}, {}, {}, false)
  }

  lemma CallKeepsInv(s: State, e: Event)
    requires Inv(s) && Enabled(s, e) && (e.CallStart? || e.CallAcquire? || e.CallCheck? || e.CallEnd?)
    ensures Inv(Apply(s, e))
  {
    var t := Apply(s, e);
    assert forall c :: c in t.calls && c != e.call ==> c in s.calls && t.calls[c] == s.calls[c];
  }

  lemma SupervisorKeepsInv(s: State, e: Event)
    requires Inv(s) && Enabled(s, e) && (e.Supervise? || e.Drop?)
    ensures Inv(Apply(s, e))
  {
    var t := Apply(s, e);
    if t.supervisors != s.supervisors {
      if e.Supervise? {
        ValuesAdd(s.supervisors, e.profile, e.next);
      } else {
        ValuesDrop(s.supervisors, e.profile);
      }
    }
    assert t.calls == s.calls;
  }

  lemma ValuesAdd(m: map<ProfileId, SupervisorId>, p: ProfileId, x: SupervisorId)
    requires p !in m
    ensures m[p := x].Values == m.Values + {x}
  {
    forall v | v in m.Values + {x} ensures v in m[p := x].Values {
      if v == x {
        assert m[p := x][p] == x;
      } else {
        var q :| q in m && m[q] == v;
        assert m[p := x][q] == v;
      }
    }
  }

  lemma ValuesDrop(m: map<ProfileId, SupervisorId>, p: ProfileId)
    requires p in m
    ensures forall v :: v in (m - {p}).Values ==> v in m.Values
    ensures forall v :: v in m.Values ==> v == m[p] || v in (m - {p}).Values
  {
    forall v | v in m.Values && v != m[p] ensures v in (m - {p}).Values {
      var q :| q in m && m[q] == v;
      assert (m - {p})[q] == v;
    }
  }

  lemma StepKeepsInv(s: State, e: Event)
    requires Inv(s) && Enabled(s, e)
    ensures Inv(Apply(s, e))
  {
    match e
    case CallStart(_, _) => CallKeepsInv(s, e);
    case CallAcquire(_) => CallKeepsInv(s, e);
    case CallCheck(_) => CallKeepsInv(s, e);
    case CallEnd(_) => CallKeepsInv(s, e);
    case Supervise(_, _) => SupervisorKeepsInv(s, e);
    case Drop(_) => SupervisorKeepsInv(s, e);
    case _ =>
  }

  ghost predicate Run(states: seq<State>, events: seq<Event>) {
    && |states| == |events| + 1 && Initial(states[0])
    && forall i :: 0 <= i < |events| ==> Moves(states[i], events[i], states[i + 1])
  }

  ghost predicate Moves(s: State, e: Event, s': State) {
    Enabled(s, e) && s' == Apply(s, e)
  }

  lemma {:induction false} RunKeepsInv(states: seq<State>, events: seq<Event>, k: nat)
    requires Run(states, events) && k < |states|
    ensures Inv(states[k])
  {
    if k == 0 {
      assert Initial(states[0]);
    } else {
      RunKeepsInv(states, events, k - 1);
      assert Moves(states[k - 1], events[k - 1], states[k]);
      hide Inv, Apply, Enabled, Initial;
      StepKeepsInv(states[k - 1], events[k - 1]);
    }
  }

  // Phases and facts that only grow.
  function Rank(p: Phase): nat {
    match p
    case Open => 0
    case Closing => 1
    case Collected => 2
    case AtBarrier => 3
    case Past => 4
  }

  ghost predicate Later(s: State, t: State) {
    Rank(s.phase) <= Rank(t.phase) && (s.told ==> t.told) && s.created <= t.created && s.dropped <= t.dropped
  }

  lemma {:induction false} RunGoesForward(states: seq<State>, events: seq<Event>, i: nat, j: nat)
    requires Run(states, events) && i <= j < |states|
    ensures Later(states[i], states[j])
    decreases j
  {
    if i < j {
      RunGoesForward(states, events, i, j - 1);
      RunKeepsInv(states, events, j - 1);
      assert Moves(states[j - 1], events[j - 1], states[j]);
    }
  }

  /** Once shutdown has the catalog barrier, no catalog call runs, and none ever runs again. */
  lemma NothingRunsPastTheBarrier(states: seq<State>, events: seq<Event>, i: nat, j: nat, c: CallId)
    requires Run(states, events) && i <= j < |states|
    requires states[i].phase == AtBarrier || states[i].phase == Past
    ensures c in states[j].calls ==> !states[j].calls[c].Running?
  {
    RunGoesForward(states, events, i, j);
    RunKeepsInv(states, events, j);
  }

  /** Every supervisor ever created was dropped by then or is in the set that shutdown closes. */
  lemma EverySupervisorIsClosed(states: seq<State>, events: seq<Event>, i: nat, j: nat, x: SupervisorId)
    requires Run(states, events) && i <= j < |states|
    requires Rank(states[i].phase) >= 2 && x in states[j].created
    ensures x in states[j].dropped || x in states[j].collected
  {
    RunGoesForward(states, events, i, j);
    RunKeepsInv(states, events, j);
  }

  /** While shutdown has the barrier, no catalog call has either side of the lock. */
  lemma BarrierExcludesCalls(states: seq<State>, events: seq<Event>, k: nat, c: CallId)
    requires Run(states, events) && k < |states| && states[k].phase == AtBarrier && c in states[k].calls
    ensures !Uses(states[k].calls[c])
  {
    RunKeepsInv(states, events, k);
  }

  /** A call that was refused was refused by a closed instance, and no API request is admitted any more; a call that
  was not refused ran before it was over. */
  lemma CallsRunOrAreRefused(states: seq<State>, events: seq<Event>, k: nat, c: CallId)
    requires Run(states, events) && k < |states| && c in states[k].calls && states[k].calls[c].Over?
    ensures states[k].calls[c] == Over(false) ==> states[k].closed && !Admits(states[k])
    ensures states[k].calls[c] == Over(true) ==>
      exists i :: 0 <= i < k && c in states[i].calls && states[i].calls[c].Running?
  {
    RunKeepsInv(states, events, k);
    if states[k].calls[c] == Over(true) {
      RanBefore(states, events, k, c);
    }
  }

  lemma {:induction false} RanBefore(states: seq<State>, events: seq<Event>, k: nat, c: CallId)
    requires Run(states, events) && k < |states| && c in states[k].calls && states[k].calls[c] == Over(true)
    ensures exists i :: 0 <= i < k && c in states[i].calls && states[i].calls[c].Running?
  {
    assert k > 0;
    assert Moves(states[k - 1], events[k - 1], states[k]);
    if c in states[k - 1].calls && states[k - 1].calls[c] == Over(true) {
      RanBefore(states, events, k - 1, c);
    }
  }

  /** The shutdown's own steps and those by which calls give the lock back. */
  predicate Finishing(e: Event) {
    e.Collect? || e.BarrierAcquire? || e.BarrierRelease? || e.CallCheck? || e.CallEnd?
  }

  /** A shutdown never gets stuck: until it has passed the barrier, it can go on itself, or a call that has the lock
  can, and once no call has it the shutdown can. */
  lemma ShutdownGoesOn(s: State)
    requires Inv(s) && s.closed && s.phase != Past
    ensures exists e :: Finishing(e) && Enabled(s, e)
    ensures (forall c :: c in s.calls ==> !Uses(s.calls[c])) ==>
      Enabled(s, Collect) || Enabled(s, BarrierAcquire) || Enabled(s, BarrierRelease)
  {
    if s.phase == Closing {
      assert Finishing(Collect) && Enabled(s, Collect);
    } else if s.phase == AtBarrier {
      assert Finishing(BarrierRelease) && Enabled(s, BarrierRelease);
    } else if c :| c in s.calls && Uses(s.calls[c]) {
      assert Finishing(CallCheck(c)) && Finishing(CallEnd(c));
      assert Enabled(s, CallCheck(c)) || Enabled(s, CallEnd(c));
    } else {
      assert Finishing(BarrierAcquire) && Enabled(s, BarrierAcquire);
    }
  }

  /** Dropping forgets the profile's supervisor, records it, and keeps every other one. */
  lemma DroppingForgets(s: State, p: ProfileId, q: ProfileId)
    requires Inv(s)
    ensures
      var t := Apply(s, Drop(p));
      && p !in t.supervisors && (p in s.supervisors ==> s.supervisors[p] in t.dropped)
      && (q != p ==> (q in t.supervisors <==> q in s.supervisors)
                     && (q in s.supervisors ==> t.supervisors[q] == s.supervisors[q]))
  {
    hide Inv;
  }

  /** A request that arrives after some call was answered ErrClosed is refused. */
  lemma NoAdmissionAfterErrClosed(states: seq<State>, events: seq<Event>, i: nat, j: nat)
    requires Run(states, events) && i <= j < |states| && states[i].told
    ensures !Admits(states[j])
  {
    RunGoesForward(states, events, i, j);
    RunKeepsInv(states, events, j);
  }

  // The instance's own methods ----------------------------------------------------------------------------

  class Instance {
    var closed: bool
    var admitting: bool
    var phase: Phase
    var calls: map<CallId, Call>
    var supervisors: map<ProfileId, SupervisorId>
    var collected: set<SupervisorId>
    ghost var created: set<SupervisorId>
    ghost var dropped: set<SupervisorId>
    ghost var told: bool

    ghost function View(): State
      reads this
    {
      State(closed, admitting, phase, calls, supervisors, collected, created, dropped, told)
    }

    constructor ()
      ensures Initial(View())
    {
      closed, admitting, phase, calls, supervisors, collected := false, true, Open, map[], map[], {};
      created, dropped, told := {}, {}, false;
    }

    method Supervisor(profile: ProfileId, next: SupervisorId) returns (r: Option<SupervisorId>)
      modifies this
      ensures (View(), r) == SuperviseStep(old(View()), profile, next)
    {
      if closed {
        told := true;
        return None;
      }
      if profile !in supervisors {
        supervisors := supervisors[profile := next];
        created := created + {next};
      }
      return Some(supervisors[profile]);
    }

    method DropSupervisor(profile: ProfileId) returns (r: Option<SupervisorId>)
      modifies this
      ensures View() == DropStep(old(View()), profile)
      ensures r == if profile in old(supervisors) then Some(old(supervisors)[profile]) else None
    {
      if profile in supervisors {
        r := Some(supervisors[profile]);
        dropped := dropped + {supervisors[profile]};
        supervisors := supervisors - {profile};
      } else {
        r := None;
      }
    }

    /** The first critical section of Close; the rest is shutdown. */
    method BeginClose() returns (accepted: bool)
      modifies this
      ensures (View(), accepted) == CloseStep(old(View()))
    {
      if closed {
        told := true;
        return false;
      }
      admitting := false;
      closed := true;
      phase := Closing;
      return true;
    }

    /** Shutdown collects the supervisors it will close. */
    method CollectSupervisors() returns (r: set<SupervisorId>)
      requires Enabled(View(), Collect)
      modifies this
      ensures View() == Apply(old(View()), Collect) && r == collected
    {
      closed := true;
      collected := supervisors.Values;
      phase := Collected;
      return collected;
    }

    /** A catalog call checks the instance once it holds its side of the lock. */
    method CheckOpen(call: CallId) returns (open: bool)
      requires Enabled(View(), CallCheck(call))
      modifies this
      ensures View() == Apply(old(View()), CallCheck(call)) && open == !old(closed)
    {
      if closed {
        told := true;
        calls := calls[call := Over(false)];
        return false;
      }
      calls := calls[call := Running(calls[call].shared)];
      return true;
    }
  }
}

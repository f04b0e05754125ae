/** The attempt protocol of the Amazon import coordinator as interleaved steps.

Every critical section of the coordinator is one step, and so is every moment at which the long work
outside the mutex begins or ends.  The lock file of a profile is an entry of an exclusive table.
`Log` records history that the program does not store: acknowledged cancels, calls of the import
boundary and their success, and how often the target was closed. */
module ImportProtocol {
  import opened Wrappers

  type ProfileId = string
  type AttemptId = string
  type DirectoryId = string

  const IDLE_LIMIT := 1800

  datatype Code =
    | ImportBusy | ImportInvalid | ImportStorage | ImportEmpty | ImportTooLarge | ImportCanceled
    | ProfileInvalid | ProfileChanged | CurrencyMismatch | AttemptInvalid | AttemptStale | Unmapped

  datatype State = SourceRequired | Parsing | Installing | Complete | Failed | Canceled

  datatype Outcome = Success | Error(code: Code)

  /** Where the goroutine working on an attempt is. */
  datatype Work = Idle | Staging | InParse | Ready | InImport | Stopping(outcome: Outcome)

  datatype Log = Log(acknowledged: bool, calls: nat, imported: bool, closes: nat)

  datatype Attempt = Attempt(
    profile: ProfileId, state: State, version: nat, lastActivity: int, running: bool, cancelRequested: bool,
    files: nat, locked: bool, open: bool, failure: Option<Code>, work: Work, log: Log)

  datatype DirectoryStage = Resolved | Holding | Calling | Ended

  /** One synchronous directory import. */
  datatype Directory = Directory(profile: ProfileId, stage: DirectoryStage)

  datatype Holder = ByAttempt(id: AttemptId) | ByDirectory(directory: DirectoryId)

  datatype System = System(
    closed: bool, current: map<ProfileId, AttemptId>, attempts: map<AttemptId, Attempt>,
    locks: map<ProfileId, Holder>, directories: map<DirectoryId, Directory>)

  datatype Reply = Accepted | Refused(code: Code)

  predicate Terminal(state: State) {
    state.Complete? || state.Failed? || state.Canceled?
  }

  predicate IsCurrent(s: System, id: AttemptId)
    requires id in s.attempts
  {
    var p := s.attempts[id].profile;
    p in s.current && s.current[p] == id
  }

  // The pieces the steps share --------------------------------------------------------------------------

  function Put(s: System, id: AttemptId, a: Attempt): System {
    s.(attempts := s.attempts[id := a])
  }

  function Release(s: System, id: AttemptId): System
    requires id in s.attempts
  {
    var a := s.attempts[id];
    if a.locked then Put(s, id, a.(locked := false)).(locks := s.locks - {a.profile}) else s
  }

  predicate SameHandle(a: Attempt, b: Attempt) {
    a.profile == b.profile && a.locked == b.locked
  }

  function CloseTarget(a: Attempt): Attempt {
    a.(open := false, log := a.log.(closes := a.log.closes + if a.open then 1 else 0))
  }

  function Touch(a: Attempt, now: int): (b: Attempt)
    ensures SameHandle(a, b)
  {
    a.(lastActivity := now)
  }

  function BeginStage(a: Attempt): (b: Attempt)
    ensures b.profile == a.profile && b.locked
  {
    a.(locked := true, running := true, cancelRequested := false, work := Staging)
  }

  function EndStage(a: Attempt): (b: Attempt)
    ensures SameHandle(a, b)
  {
    a.(running := false, work := Idle)
  }

  function CancelStage(a: Attempt): (b: Attempt)
    ensures SameHandle(a, b)
  {
    EndStage(a).(state := Canceled, version := a.version + 1)
  }

  function AcceptFiles(a: Attempt, count: nat): (b: Attempt)
    ensures SameHandle(a, b)
  {
    EndStage(a).(files := count, version := a.version + 1)
  }

  function BeginExecute(a: Attempt): (b: Attempt)
    ensures SameHandle(a, b)
  {
    a.(state := Parsing, running := true, cancelRequested := false, version := a.version + 1, work := InParse)
  }

  function StopWith(a: Attempt, outcome: Outcome): (b: Attempt)
    ensures SameHandle(a, b)
  {
    a.(work := Stopping(outcome))
  }

  /** Parsing succeeded: install unless a cancel came first. */
  function EndParse(a: Attempt, parsed: Outcome): (b: Attempt)
    ensures SameHandle(a, b)
  {
    if parsed.Error? then StopWith(a, parsed)
    else if a.cancelRequested then StopWith(a, Error(ImportCanceled))
    else a.(state := Installing, version := a.version + 1, work := Ready)
  }

  function BeginImport(a: Attempt, available: bool): (b: Attempt)
    ensures SameHandle(a, b)
  {
    if available then a.(work := InImport, log := a.log.(calls := a.log.calls + 1))
        else StopWith(a, Error(ProfileInvalid))
  }

  function EndImport(a: Attempt, installed: Outcome): (b: Attempt)
    ensures SameHandle(a, b)
  {
    StopWith(a, installed).(log := a.log.(imported := installed.Success?))
  }

  /** The final state of an attempt whose work stopped with an outcome. */
  function Conclude(a: Attempt, outcome: Outcome): (b: Attempt)
    ensures SameHandle(a, b)
  {
    var stopped := a.(running := false, version := a.version + 1, work := Idle);
    if a.cancelRequested || outcome == Error(ImportCanceled) then stopped.(state := Canceled)
    else if outcome.Success? then stopped.(state := Complete)
    else stopped.(state := Failed, failure := Some(outcome.code))
  }

  /** A cancel is acknowledged; running work is asked to stop. */
  function AcknowledgeCancel(a: Attempt): (b: Attempt)
    ensures SameHandle(a, b)
  {
    a.(state := Canceled, version := a.version + 1, log := a.log.(acknowledged := true),
       cancelRequested := a.cancelRequested || a.running)
  }

  predicate Cancelable(a: Attempt) {
    a.state != Installing && !(Terminal(a.state) && !a.running)
  }

  predicate Executable(a: Attempt) {
    a.state == SourceRequired && a.files > 0 && a.locked
  }

  /** Drops the staged files, the import lock and the target. */
  function Cleanup(s: System, id: AttemptId): System
    requires id in s.attempts
  {
    var r := Release(s, id);
    Put(r, id, CloseTarget(r.attempts[id].(files := 0)))
  }

  function Forget(s: System, profile: ProfileId): System {
    s.(current := s.current - {profile})
  }

  predicate Expired(a: Attempt, now: int) {
    !a.running && now - a.lastActivity >= IDLE_LIMIT
  }

  /** Finds the profile's attempt, expiring it when it has been idle too long. */
  function Lookup(s: System, profile: ProfileId, id: AttemptId, now: int): (System, bool)
    requires Known(s)
  {
    if profile !in s.current || s.current[profile] != id then (s, false)
    else if Expired(s.attempts[id], now) then (Forget(Cleanup(s, id), profile), false)
    else (Put(s, id, Touch(s.attempts[id], now)), true)
  }

  ghost predicate Known(s: System) {
    forall p :: p in s.current ==> s.current[p] in s.attempts && s.attempts[s.current[p]].profile == p
  }

  // Steps -------------------------------------------------------------------------------------------------

  datatype StageOutcome = Staged(count: nat) | StageError(code: Code)

  datatype Event =
    | Start(id: AttemptId, profile: ProfileId, named: bool, now: int)
    | StageBegin(profile: ProfileId, id: AttemptId, expected: nat, now: int, lockable: bool)
    | StageEnd(id: AttemptId, staged: StageOutcome)
    | ExecuteBegin(profile: ProfileId, id: AttemptId, expected: nat, now: int)
    | Progress(id: AttemptId, now: int)
    | ParseEnd(id: AttemptId, parsed: Outcome)
    | ImportCall(id: AttemptId, available: bool)
    | ImportEnd(id: AttemptId, installed: Outcome)
    | Panic(id: AttemptId)
    | Finish(id: AttemptId)
    | Cancel(profile: ProfileId, id: AttemptId, expected: nat, now: int)
    | Status(profile: ProfileId, id: AttemptId, now: int)
    | Close
    | DirectoryBegin(directory: DirectoryId, profile: ProfileId)
    | DirectoryLock(directory: DirectoryId, lockable: bool)
    | DirectoryCall(directory: DirectoryId)
    | DirectoryEnd(directory: DirectoryId)

  function NewAttempt(profile: ProfileId, now: int): Attempt {
    Attempt(profile, SourceRequired, 1, now, false, false, 0, false, true, None, Idle, Log(false, 0, false, 0))
  }

  /** Starting over an attempt that was idle too long drops it first. */
  function Reaped(s: System, profile: ProfileId, now: int): System
    requires Known(s)
  {
    if profile in s.current && Expired(s.attempts[s.current[profile]], now)
    then Forget(Cleanup(s, s.current[profile]), profile) else s
  }

  /** Start after its target was resolved; `named` says that a random identifier could be drawn. */
  function StartStep(s: System, id: AttemptId, profile: ProfileId, named: bool, now: int): (System, Reply)
    requires Known(s)
  {
    if s.closed then (s, Refused(AttemptInvalid))
    else
      var reaped := Reaped(s, profile, now);
      if profile in reaped.current
          && (!Terminal(s.attempts[s.current[profile]].state) || s.attempts[s.current[profile]].running)
        then (reaped, Refused(ImportBusy))
      else if !named then (reaped, Refused(ImportInvalid))
      else (Put(reaped, id, NewAttempt(profile, now)).(current := reaped.current[profile := id]), Accepted)
  }

  /** `lockable` says that the profile's lock file can be opened at all. */
  function StageBeginStep(s: System, profile: ProfileId, id: AttemptId, expected: nat, now: int,
    lockable: bool): (System, Reply)
    requires Known(s)
  {
    var (t, found) := Lookup(s, profile, id, now);
    if !found then (t, Refused(AttemptInvalid))
    else if t.attempts[id].version != expected then (t, Refused(AttemptStale))
    else if t.attempts[id].state != SourceRequired then (t, Refused(AttemptInvalid))
    else if !lockable then (t, Refused(ProfileInvalid))
    else if profile in t.locks then (t, Refused(ImportBusy))
    else
      (Put(t, id, BeginStage(t.attempts[id])).(locks := t.locks[profile := ByAttempt(id)]), Accepted)
  }

  function StageEndStep(s: System, id: AttemptId, staged: StageOutcome): (System, Reply)
    requires id in s.attempts
  {
    var a := s.attempts[id];
    if s.closed then (Forget(Cleanup(Put(s, id, EndStage(a)), id), a.profile), Refused(AttemptInvalid))
    else if a.cancelRequested || staged == StageError(ImportCanceled) then
      (Cleanup(Put(s, id, CancelStage(a)), id), Refused(ImportCanceled))
    else if staged.StageError? then (Release(Put(s, id, EndStage(a)), id), Refused(staged.code))
    else (Put(s, id, AcceptFiles(a, staged.count)), Accepted)
  }

  function ExecuteBeginStep(s: System, profile: ProfileId, id: AttemptId, expected: nat, now: int): (System, Reply)
    requires Known(s)
  {
    var (t, found) := Lookup(s, profile, id, now);
    if !found then (t, Refused(AttemptInvalid))
    else if t.attempts[id].version != expected then (t, Refused(AttemptStale))
    else if !Executable(t.attempts[id]) then (t, Refused(AttemptInvalid))
    else (Put(t, id, BeginExecute(t.attempts[id])), Accepted)
  }

  function FinishStep(s: System, id: AttemptId, outcome: Outcome): (System, Reply)
    requires id in s.attempts
  {
    (Cleanup(Put(s, id, Conclude(s.attempts[id], outcome)), id),
        if outcome.Success? then Accepted else Refused(outcome.code))
  }

  function CancelStep(s: System, profile: ProfileId, id: AttemptId, expected: nat, now: int): (System, Reply)
    requires Known(s)
  {
    var (t, found) := Lookup(s, profile, id, now);
    if !found then (t, Refused(AttemptInvalid))
    else if t.attempts[id].version != expected then (t, Refused(AttemptStale))
    else if !Cancelable(t.attempts[id]) then (t, Refused(AttemptInvalid))
    else if t.attempts[id].running then (Put(t, id, AcknowledgeCancel(t.attempts[id])), Accepted)
    else (Cleanup(Put(t, id, AcknowledgeCancel(t.attempts[id])), id), Accepted)
  }

  /** Close cleans up every attempt that is not running and forgets it. */
  function CloseStep(s: System): System
    requires Known(s)
  {
    var idle := set p | p in s.current && !s.attempts[s.current[p]].running;
    System(
      true, s.current - idle,
      map id | id in s.attempts ::
        if IsCurrent(s, id) && !s.attempts[id].running
        then CloseTarget(s.attempts[id].(files := 0, locked := false)) else s.attempts[id],
      map p | p in s.locks && !(p in idle && s.attempts[s.current[p]].locked) :: s.locks[p],
      s.directories)
  }

  function DirectoryLockStep(s: System, d: DirectoryId, lockable: bool): System
    requires d in s.directories
  {
    var w := s.directories[d];
    if !lockable || w.profile in s.locks then s.(directories := s.directories[d := w.(stage := Ended)])
    else s.(directories := s.directories[d := w.(stage := Holding)], locks := s.locks[w.profile := ByDirectory(d)])
  }

  function DirectoryEndStep(s: System, d: DirectoryId): System
    requires d in s.directories
  {
    var w := s.directories[d];
    s.(directories := s.directories[d := w.(stage := Ended)], locks := s.locks - {w.profile})
  }

  /** When a step can happen: identifiers are drawn once, and work continues where it stands. */
  predicate Enabled(s: System, e: Event) {
    match e
    case Start(id, _, _, _) => id !in s.attempts
    case StageEnd(id, staged) => id in s.attempts && s.attempts[id].work == Staging
        && (staged.Staged? ==> staged.count > 0)
    case Progress(id, _) => id in s.attempts && s.attempts[id].work == InParse
    case ParseEnd(id, _) => id in s.attempts && s.attempts[id].work == InParse
    case ImportCall(id, _) => id in s.attempts && s.attempts[id].work == Ready
    case ImportEnd(id, _) => id in s.attempts && s.attempts[id].work == InImport
    case Panic(id) => id in s.attempts && (s.attempts[id].work == InParse || s.attempts[id].work == InImport)
    case Finish(id) => id in s.attempts && s.attempts[id].work.Stopping?
    case DirectoryBegin(d, _) => d !in s.directories && !s.closed
    case DirectoryLock(d, _) => d in s.directories && s.directories[d].stage == Resolved
    case DirectoryCall(d) => d in s.directories && s.directories[d].stage == Holding
    case DirectoryEnd(d) => d in s.directories
        && (s.directories[d].stage == Holding || s.directories[d].stage == Calling)
    case _ => true
  }

  function Apply(s: System, e: Event): (System, Reply)
    requires Known(s) && Enabled(s, e)
  {
    match e
    case Start(id, profile, named, now) => StartStep(s, id, profile, named, now)
    case StageBegin(profile, id, expected, now, lockable) => StageBeginStep(s, profile, id, expected, now, lockable)
    case StageEnd(id, staged) => StageEndStep(s, id, staged)
    case ExecuteBegin(profile, id, expected, now) => ExecuteBeginStep(s, profile, id, expected, now)
    case Progress(id, now) => (Put(s, id, Touch(s.attempts[id], now)), Accepted)
    case ParseEnd(id, parsed) => (Put(s, id, EndParse(s.attempts[id], parsed)), Accepted)
    case ImportCall(id, available) => (Put(s, id, BeginImport(s.attempts[id], available)), Accepted)
    case ImportEnd(id, installed) => (Put(s, id, EndImport(s.attempts[id], installed)), Accepted)
    case Panic(id) => (Put(s, id, StopWith(s.attempts[id], Error(Unmapped))), Accepted)
    case Finish(id) => FinishStep(s, id, s.attempts[id].work.outcome)
    case Cancel(profile, id, expected, now) => CancelStep(s, profile, id, expected, now)
    case Status(profile, id, now) =>
      var (t, found) := Lookup(s, profile, id, now);
      (t, if found then Accepted else Refused(AttemptInvalid))
    case Close => (CloseStep(s), Accepted)
    case DirectoryBegin(d, profile) => (s.(directories := s.directories[d := Directory(profile, Resolved)]), Accepted)
    case DirectoryLock(d, lockable) => (DirectoryLockStep(s, d, lockable), Accepted)
    case DirectoryCall(d) => (s.(directories := s.directories[d := s.directories[d].(stage := Calling)]), Accepted)
    case DirectoryEnd(d) => (DirectoryEndStep(s, d), Accepted)
  }

  // The invariant -----------------------------------------------------------------------------------------

  /** What holds of one attempt; `current` says that its profile still names it. */
  ghost predicate Fine(a: Attempt, current: bool, closed: bool) {
    && (a.running <==> a.work != Idle)
    && a.log.closes == (if a.open then 0 else 1)
    && (a.running ==> current && a.open && a.locked)
    && (!current ==> !a.locked && !a.open)
    && (!a.running && Terminal(a.state) ==> !a.locked && !a.open && a.files == 0)
    && (!a.running && current && !Terminal(a.state) ==>
          !closed && a.state == SourceRequired && a.open && (a.locked <==> a.files > 0))
    && WorkFits(a) && LogFits(a)
  }

  ghost predicate WorkFits(a: Attempt) {
    && (a.work == Staging ==> a.files == 0 && (a.state == SourceRequired || a.state == Canceled))
    && (a.work == InParse ==> a.state == Parsing || a.state == Canceled)
    && (a.work == Ready || a.work == InImport ==> a.state == Installing)
    && (a.work.Stopping? ==> a.state == Parsing || a.state == Installing || a.state == Canceled)
    && (a.work == Stopping(Outcome.Success) ==> a.state == Installing)
    && (a.running ==> (a.cancelRequested <==> a.state == Canceled))
  }

  ghost predicate LogFits(a: Attempt) {
    && a.log.calls <= 1
    && (a.log.acknowledged ==> a.state == Canceled && a.log.calls == 0)
    && (a.state == SourceRequired || a.state == Parsing || a.work == Ready || a.work == InParse ==> a.log.calls == 0)
    && (a.running && a.state == Canceled ==> a.log.calls == 0)
    && (a.log.imported <==> a.work == Stopping(Outcome.Success) || a.state == Complete)
    && (a.log.imported || a.work == InImport ==> a.log.calls == 1)
  }

  ghost predicate LocksFit(s: System) {
    && (forall p :: p in s.locks ==>
          match s.locks[p]
          case ByAttempt(id) => id in s.attempts && s.attempts[id].locked && s.attempts[id].profile == p
          case ByDirectory(d) => d in s.directories && s.directories[d].profile == p
                                 && (s.directories[d].stage == Holding || s.directories[d].stage == Calling))
    && (forall id :: id in s.attempts && s.attempts[id].locked ==>
          s.attempts[id].profile in s.locks && s.locks[s.attempts[id].profile] == ByAttempt(id))
    && (forall d :: d in s.directories && (s.directories[d].stage == Holding || s.directories[d].stage == Calling) ==>
          s.directories[d].profile in s.locks && s.locks[s.directories[d].profile] == ByDirectory(d))
  }

  ghost predicate AllFine(s: System) {
    forall id :: id in s.attempts ==> Fine(s.attempts[id], IsCurrent(s, id), s.closed)
  }

  ghost predicate Inv(s: System) {
    Known(s) && LocksFit(s) && AllFine(s)
  }

  ghost predicate Initial(s: System) {
    s == System(false, map[], map[], map[], map[])
  }

  // One attempt at a time ------------------------------------------------------------------------------

  function Dropped(a: Attempt): Attempt {
    CloseTarget(a.(files := 0, locked := false))
  }

  lemma FineTouched(a: Attempt, current: bool, closed: bool, now: int)
    requires Fine(a, current, closed)
    ensures Fine(Touch(a, now), current, closed)
  {
  }

  lemma FineDropped(a: Attempt, closed: bool)
    requires Fine(a, true, closed) && !a.running
    ensures forall c :: Fine(Dropped(a), false, c)
  {
  }

  lemma FineNew(profile: ProfileId, now: int)
    ensures Fine(NewAttempt(profile, now), true, false)
  {
  }

  lemma FineReplaced(a: Attempt, closed: bool)
    requires Fine(a, true, closed) && !a.running && Terminal(a.state)
    ensures Fine(a, false, closed)
  {
  }

  lemma FineStaging(a: Attempt, closed: bool)
    requires Fine(a, true, closed) && a.state == SourceRequired && !a.locked
    ensures Fine(BeginStage(a), true, closed)
  {
  }

  lemma FineStaged(a: Attempt, staged: StageOutcome)
    requires Fine(a, true, false) && a.work == Staging && (staged.Staged? ==> staged.count > 0)
    ensures a.cancelRequested || staged == StageError(ImportCanceled) ==> Fine(Dropped(CancelStage(a)), true, false)
    ensures !a.cancelRequested && staged.StageError? ==> Fine(EndStage(a).(locked := false), true, false)
    ensures !a.cancelRequested && staged.Staged? ==> Fine(AcceptFiles(a, staged.count), true, false)
  {
  }

  lemma FineStagedAfterClose(a: Attempt)
    requires Fine(a, true, true) && a.work == Staging
    ensures Fine(Dropped(EndStage(a)), false, true)
  {
  }

  lemma FineExecuting(a: Attempt, closed: bool)
    requires Fine(a, true, closed) && Executable(a)
    ensures Fine(BeginExecute(a), true, closed)
  {
  }

  lemma FineParsed(a: Attempt, closed: bool, parsed: Outcome)
    requires Fine(a, true, closed) && a.work == InParse
    ensures Fine(EndParse(a, parsed), true, closed)
  {
  }

  lemma FineCalled(a: Attempt, closed: bool, available: bool)
    requires Fine(a, true, closed) && a.work == Ready
    ensures Fine(BeginImport(a, available), true, closed)
  {
  }

  lemma FineInstalled(a: Attempt, closed: bool, installed: Outcome)
    requires Fine(a, true, closed) && a.work == InImport
    ensures Fine(EndImport(a, installed), true, closed)
  {
  }

  lemma FinePanicked(a: Attempt, closed: bool)
    requires Fine(a, true, closed) && (a.work == InParse || a.work == InImport)
    ensures Fine(StopWith(a, Error(Unmapped)), true, closed)
  {
  }

  lemma FineFinished(a: Attempt, closed: bool, outcome: Outcome)
    requires Fine(a, true, closed) && a.work == Stopping(outcome)
    ensures Fine(Dropped(Conclude(a, outcome)), true, closed)
  {
  }

  lemma FineCanceled(a: Attempt, closed: bool)
    requires Fine(a, true, closed) && Cancelable(a)
    ensures a.running ==> Fine(AcknowledgeCancel(a), true, closed)
    ensures !a.running ==> Fine(Dropped(AcknowledgeCancel(a)), true, closed)
  {
  }

  // Every step keeps the invariant ---------------------------------------------------------------------

  ghost predicate LocksAfter(s: System, s': System, id: AttemptId, a': Attempt) {
    var p := a'.profile;
    var mine := p in s.locks && s.locks[p] == ByAttempt(id);
    if a'.locked then (p !in s.locks || mine) && s'.locks == s.locks[p := ByAttempt(id)]
    else s'.locks == if mine then s.locks - {p} else s.locks
  }

  ghost predicate CurrentAfter(s: System, s': System, p: ProfileId, id: AttemptId) {
    && (forall q :: q != p ==>
       (q in s'.current <==> q in s.current) && (q in s.current ==> s'.current[q] == s.current[q]))
    && (p in s'.current ==> s'.current[p] == id)
  }

  // A step that rewrites one attempt, its profile's entry and its profile's lock.
  lemma RewriteKeepsInv(s: System, s': System, id: AttemptId, a': Attempt)
    requires Inv(s) && s' == System(s.closed, s'.current, s.attempts[id := a'], s'.locks, s.directories)
    requires id in s.attempts ==> s.attempts[id].profile == a'.profile
    requires CurrentAfter(s, s', a'.profile, id) && LocksAfter(s, s', id, a')
    requires a'.profile in s.current && s.current[a'.profile] != id ==>
        Fine(s.attempts[s.current[a'.profile]], false, s.closed)
    requires Fine(a', a'.profile in s'.current, s.closed)
    ensures Inv(s')
  {
    RewrittenKnown(s, s', id, a');
    RewrittenFine(s, s', id, a');
    RewrittenLocks(s, s', id, a');
    hide Fine, Known, AllFine, LocksFit, LocksAfter, CurrentAfter;
  }

  lemma RewrittenKnown(s: System, s': System, id: AttemptId, a': Attempt)
    requires Known(s) && s'.attempts == s.attempts[id := a']
    requires id in s.attempts ==> s.attempts[id].profile == a'.profile
    requires CurrentAfter(s, s', a'.profile, id)
    ensures Known(s')
  {
  }

  lemma RewrittenFine(s: System, s': System, id: AttemptId, a': Attempt)
    requires Known(s) && AllFine(s) && s'.attempts == s.attempts[id := a'] && s'.closed == s.closed
    requires id in s.attempts ==> s.attempts[id].profile == a'.profile
    requires CurrentAfter(s, s', a'.profile, id)
    requires a'.profile in s.current && s.current[a'.profile] != id ==>
        Fine(s.attempts[s.current[a'.profile]], false, s.closed)
    requires Fine(a', a'.profile in s'.current, s.closed)
    ensures AllFine(s')
  {
    hide Fine;
    forall x | x in s'.attempts ensures Fine(s'.attempts[x], IsCurrent(s', x), s'.closed) {
      if x != id {
        assert Fine(s.attempts[x], IsCurrent(s, x), s.closed);
      }
    }
  }

  lemma RewrittenLocks(s: System, s': System, id: AttemptId, a': Attempt)
    requires LocksFit(s) && s'.attempts == s.attempts[id := a'] && s'.directories == s.directories
    requires id in s.attempts ==> s.attempts[id].profile == a'.profile
    requires LocksAfter(s, s', id, a')
    ensures LocksFit(s')
  {
  }

  lemma FineHere(s: System, id: AttemptId)
    requires Inv(s) && id in s.attempts
    ensures Fine(s.attempts[id], IsCurrent(s, id), s.closed)
    ensures var p := s.attempts[id].profile;
      s.attempts[id].locked <==> p in s.locks && s.locks[p] == ByAttempt(id)
  {
    hide Fine;
  }

  lemma CurrentHere(s: System, profile: ProfileId)
    requires Inv(s) && profile in s.current
    ensures
      var id := s.current[profile];
      id in s.attempts && s.attempts[id].profile == profile && IsCurrent(s, id) && Fine(s.attempts[id], true, s.closed)
  {
    hide Fine;
  }

  lemma KnownHere(s: System)
    requires Inv(s)
    ensures Known(s)
  {
  }

  // Rewriting an attempt in place, with its lock kept.
  lemma PutKeepsInv(s: System, id: AttemptId, a': Attempt)
    requires Inv(s) && id in s.attempts && a'.profile == s.attempts[id].profile && a'.locked == s.attempts[id].locked
    requires IsCurrent(s, id) && Fine(a', true, s.closed)
    ensures Inv(Put(s, id, a'))
  {
    FineHere(s, id);
    hide Fine, Inv;
    var s' := Put(s, id, a');
    assert a'.locked ==> s.locks == s.locks[a'.profile := ByAttempt(id)];
    assert LocksAfter(s, s', id, a');
    RewriteKeepsInv(s, s', id, a');
  }

  // Rewriting an attempt and cleaning it up.
  lemma CleanupKeepsInv(s: System, id: AttemptId, a': Attempt, forget: bool)
    requires Inv(s) && id in s.attempts && a'.profile == s.attempts[id].profile && a'.locked == s.attempts[id].locked
    requires IsCurrent(s, id) && Fine(Dropped(a'), !forget, s.closed)
    ensures
      var t := Cleanup(Put(s, id, a'), id);
      Inv(if forget then Forget(t, a'.profile) else t)
  {
    hide Fine, Inv, Cleanup, Dropped, LocksAfter, CurrentAfter;
    FineHere(s, id);
    var t := Cleanup(Put(s, id, a'), id);
    CleanupShape(s, id, a');
    var s' := if forget then Forget(t, a'.profile) else t;
    SameCurrent(s, s', id, a'.profile, forget);
    RewriteKeepsInv(s, s', id, Dropped(a'));
  }

  lemma SameCurrent(s: System, s': System, id: AttemptId, profile: ProfileId, forget: bool)
    requires profile in s.current && s.current[profile] == id
    requires s'.current == if forget then s.current - {profile} else s.current
    ensures CurrentAfter(s, s', profile, id)
    ensures profile in s'.current <==> !forget
  {
  }

  lemma CleanupShape(s: System, id: AttemptId, a': Attempt)
    requires id in s.attempts
    requires a'.locked <==> a'.profile in s.locks && s.locks[a'.profile] == ByAttempt(id)
    ensures
      var t := Cleanup(Put(s, id, a'), id);
      && t.attempts == s.attempts[id := Dropped(a')] && t.current == s.current && t.closed == s.closed
      && t.directories == s.directories && LocksAfter(s, t, id, Dropped(a'))
      && LocksAfter(s, Forget(t, a'.profile), id, Dropped(a'))
      && Dropped(a').profile == a'.profile
  {
  }

  // Rewriting an attempt and dropping its lock.
  lemma ReleaseKeepsInv(s: System, id: AttemptId, a': Attempt)
    requires Inv(s) && id in s.attempts && a'.profile == s.attempts[id].profile && a'.locked == s.attempts[id].locked
    requires IsCurrent(s, id) && Fine(a'.(locked := false), true, s.closed)
    ensures Inv(Release(Put(s, id, a'), id))
  {
    hide Fine, Inv;
    FineHere(s, id);
    var t := Release(Put(s, id, a'), id);
    assert t.attempts == s.attempts[id := a'.(locked := false)];
    assert LocksAfter(s, t, id, a'.(locked := false));
    SameCurrent(s, t, id, a'.profile, false);
    hide Release, LocksAfter, CurrentAfter;
    RewriteKeepsInv(s, t, id, a'.(locked := false));
  }

  lemma LookupKeepsInv(s: System, profile: ProfileId, id: AttemptId, now: int)
    requires Inv(s)
    ensures Known(s)
    ensures
      var (t, found) := Lookup(s, profile, id, now);
      && Inv(t)
      && (found ==>
         id in t.attempts && IsCurrent(t, id) && t.attempts[id].profile == profile
         && Fine(t.attempts[id], true, t.closed))
  {
    KnownHere(s);
    hide Inv, Fine, Dropped, Cleanup, Touch, Forget;
    if profile in s.current && s.current[profile] == id {
      CurrentHere(s, profile);
      var a := s.attempts[id];
      PutNothing(s, id);
      if Expired(a, now) {
        FineDropped(a, s.closed);
        CleanupKeepsInv(s, id, a, true);
      } else {
        FineTouched(a, true, s.closed, now);
        PutKeepsInv(s, id, Touch(a, now));
      }
    }
  }

  lemma PutNothing(s: System, id: AttemptId)
    requires id in s.attempts
    ensures Put(s, id, s.attempts[id]) == s
  {
    assert s.attempts[id := s.attempts[id]] == s.attempts;
  }

  lemma ReapingKeepsInv(s: System, profile: ProfileId, now: int)
    requires Inv(s)
    ensures Known(s) && Inv(Reaped(s, profile, now))
    ensures Reaped(s, profile, now).attempts.Keys == s.attempts.Keys && Reaped(s, profile, now).closed == s.closed
    ensures profile in Reaped(s, profile, now).current ==> Reaped(s, profile, now) == s
  {
    hide Inv, Fine, Dropped;
    KnownHere(s);
    if profile in s.current && Expired(s.attempts[s.current[profile]], now) {
      CurrentHere(s, profile);
      var id := s.current[profile];
      FineHere(s, id);
      CleanupShape(s, id, s.attempts[id]);
      hide Cleanup, Put;
      PutNothing(s, id);
      FineDropped(s.attempts[id], s.closed);
      CleanupKeepsInv(s, id, s.attempts[id], true);
    }
  }

  lemma NewIsUnlocked(s: System, id: AttemptId, profile: ProfileId)
    requires Inv(s) && id !in s.attempts
    ensures !(profile in s.locks && s.locks[profile] == ByAttempt(id))
  {
    hide Fine;
  }

  lemma AddingKeepsInv(s: System, id: AttemptId, profile: ProfileId, now: int)
    requires Inv(s) && id !in s.attempts && !s.closed && Known(s)
    requires profile in s.current ==>
        Terminal(s.attempts[s.current[profile]].state) && !s.attempts[s.current[profile]].running
    ensures Inv(Put(s, id, NewAttempt(profile, now)).(current := s.current[profile := id]))
  {
    NewIsUnlocked(s, id, profile);
    FineNew(profile, now);
    if profile in s.current {
      CurrentHere(s, profile);
      FineReplaced(s.attempts[s.current[profile]], s.closed);
    }
    hide Inv, Fine;
    var s' := Put(s, id, NewAttempt(profile, now)).(current := s.current[profile := id]);
    RewriteKeepsInv(s, s', id, NewAttempt(profile, now));
  }

  lemma StartKeepsInv(s: System, id: AttemptId, profile: ProfileId, named: bool, now: int)
    requires Inv(s) && id !in s.attempts
    ensures Known(s) && Inv(StartStep(s, id, profile, named, now).0)
  {
    ReapingKeepsInv(s, profile, now);
    var t := Reaped(s, profile, now);
    KnownHere(t);
    hide Inv, Fine, Reaped, Terminal, NewAttempt;
    if !s.closed && StartStep(s, id, profile, named, now).1 == Accepted {
      AddingKeepsInv(t, id, profile, now);
    }
  }

  lemma StagingShape(s: System, profile: ProfileId, id: AttemptId, expected: nat, now: int, lockable: bool)
    requires Known(s) && Lookup(s, profile, id, now).1
        && StageBeginStep(s, profile, id, expected, now, lockable).1 == Accepted
    ensures
      var (t, s') := (Lookup(s, profile, id, now).0, StageBeginStep(s, profile, id, expected, now, lockable).0);
      && id in t.attempts && t.attempts[id].state == SourceRequired && profile !in t.locks
      && (t.attempts[id].profile == profile && IsCurrent(t, id) ==>
            && s' == System(t.closed, s'.current, t.attempts[id := BeginStage(t.attempts[id])], s'.locks, t.directories)
            && CurrentAfter(t, s', profile, id) && LocksAfter(t, s', id, BeginStage(t.attempts[id]))
            && s'.current == t.current)
  {
    hide Known, Cleanup;
  }

  lemma StageBeginKeepsInv(s: System, profile: ProfileId, id: AttemptId, expected: nat, now: int, lockable: bool)
    requires Inv(s)
    ensures Known(s) && Inv(StageBeginStep(s, profile, id, expected, now, lockable).0)
  {
    LookupKeepsInv(s, profile, id, now);
    var (t, found) := Lookup(s, profile, id, now);
    var (s', reply) := StageBeginStep(s, profile, id, expected, now, lockable);
    hide Inv, Lookup, Fine, BeginStage;
    if found && reply == Accepted {
      StagingShape(s, profile, id, expected, now, lockable);
      hide StageBeginStep, LocksAfter, CurrentAfter;
      FineHere(t, id);
      FineStaging(t.attempts[id], t.closed);
      RewriteKeepsInv(t, s', id, BeginStage(t.attempts[id]));
    }
  }

  lemma StageEndKeepsInv(s: System, id: AttemptId, staged: StageOutcome)
    requires Inv(s) && Enabled(s, StageEnd(id, staged))
    ensures Inv(StageEndStep(s, id, staged).0)
  {
    RunningHere(s, id);
    hide Inv, Fine, Dropped, Cleanup, Release, Put, EndStage, CancelStage, AcceptFiles;
    var a := s.attempts[id];
    if s.closed {
      FineStagedAfterClose(a);
      CleanupKeepsInv(s, id, EndStage(a), true);
    } else {
      FineStaged(a, staged);
      if a.cancelRequested || staged == StageError(ImportCanceled) {
        CleanupKeepsInv(s, id, CancelStage(a), false);
      } else if staged.StageError? {
        ReleaseKeepsInv(s, id, EndStage(a));
      } else {
        PutKeepsInv(s, id, AcceptFiles(a, staged.count));
      }
    }
  }

  lemma RunningHere(s: System, id: AttemptId)
    requires Inv(s) && id in s.attempts && s.attempts[id].work != Idle
    ensures IsCurrent(s, id) && Fine(s.attempts[id], true, s.closed)
  {
    FineHere(s, id);
    hide Inv;
  }

  lemma ExecuteBeginKeepsInv(s: System, profile: ProfileId, id: AttemptId, expected: nat, now: int)
    requires Inv(s)
    ensures Known(s) && Inv(ExecuteBeginStep(s, profile, id, expected, now).0)
  {
    LookupKeepsInv(s, profile, id, now);
    var (t, found) := Lookup(s, profile, id, now);
    hide Inv, Lookup, Fine, Put, BeginExecute, Executable;
    if found && ExecuteBeginStep(s, profile, id, expected, now).1 == Accepted {
      FineExecuting(t.attempts[id], t.closed);
      PutKeepsInv(t, id, BeginExecute(t.attempts[id]));
    }
  }

  lemma CancelKeepsInv(s: System, profile: ProfileId, id: AttemptId, expected: nat, now: int)
    requires Inv(s)
    ensures Known(s) && Inv(CancelStep(s, profile, id, expected, now).0)
  {
    LookupKeepsInv(s, profile, id, now);
    var (t, found) := Lookup(s, profile, id, now);
    hide Inv, Lookup, Fine, Dropped, Cleanup, Put, Cancelable, AcknowledgeCancel;
    if found && CancelStep(s, profile, id, expected, now).1 == Accepted {
      var a := t.attempts[id];
      FineCanceled(a, t.closed);
      if a.running {
        PutKeepsInv(t, id, AcknowledgeCancel(a));
      } else {
        CleanupKeepsInv(t, id, AcknowledgeCancel(a), false);
      }
    }
  }

  lemma FinishKeepsInv(s: System, id: AttemptId)
    requires Inv(s) && Enabled(s, Finish(id))
    ensures Inv(FinishStep(s, id, s.attempts[id].work.outcome).0)
  {
    RunningHere(s, id);
    var a, outcome := s.attempts[id], s.attempts[id].work.outcome;
    FineFinished(a, s.closed, outcome);
    hide Inv, Fine, Dropped, Cleanup, Put, Conclude;
    CleanupKeepsInv(s, id, Conclude(a, outcome), false);
  }

  // Steps of the goroutine that works on an attempt.
  lemma WorkKeepsInv(s: System, e: Event)
    requires Inv(s) && Enabled(s, e)
    requires e.Progress? || e.ParseEnd? || e.ImportCall? || e.ImportEnd? || e.Panic?
    ensures Known(s) && Inv(Apply(s, e).0)
  {
    KnownHere(s);
    RunningHere(s, e.id);
    var a := s.attempts[e.id];
    hide Inv, Fine, Known, Touch, EndParse, BeginImport, EndImport, StopWith, Put, IsCurrent;
    hide StartStep, StageBeginStep, StageEndStep, ExecuteBeginStep, FinishStep, CancelStep, CloseStep, Lookup;
    match e
    case Progress(id, now) =>
      FineTouched(a, true, s.closed, now);
      PutKeepsInv(s, id, Touch(a, now));
    case ParseEnd(id, parsed) =>
      FineParsed(a, s.closed, parsed);
      PutKeepsInv(s, id, EndParse(a, parsed));
    case ImportCall(id, available) =>
      FineCalled(a, s.closed, available);
      PutKeepsInv(s, id, BeginImport(a, available));
    case ImportEnd(id, installed) =>
      FineInstalled(a, s.closed, installed);
      PutKeepsInv(s, id, EndImport(a, installed));
    case Panic(id) =>
      FinePanicked(a, s.closed);
      PutKeepsInv(s, id, StopWith(a, Error(Unmapped)));
  }

  // Close forgets every attempt that is not running.
  predicate Dies(s: System, id: AttemptId)
    requires id in s.attempts
  {
    IsCurrent(s, id) && !s.attempts[id].running
  }

  lemma ClosingAttempt(s: System, id: AttemptId)
    requires Inv(s) && id in s.attempts
    ensures
      var t := CloseStep(s);
      id in t.attempts && Fine(t.attempts[id], IsCurrent(s, id) && !Dies(s, id), true)
      && t.attempts[id].locked == (s.attempts[id].locked && !Dies(s, id))
      && t.attempts[id].profile == s.attempts[id].profile
  {
    FineHere(s, id);
    KnownHere(s);
    hide Inv, Fine, Known;
    if Dies(s, id) {
      FineDropped(s.attempts[id], s.closed);
    } else {
      FineStaysClosed(s.attempts[id], IsCurrent(s, id), s.closed);
    }
  }

  lemma FineStaysClosed(a: Attempt, current: bool, closed: bool)
    requires Fine(a, current, closed) && (current ==> a.running)
    ensures Fine(a, current, true)
  {
  }

  lemma CloseKeepsInv(s: System)
    requires Inv(s)
    ensures Known(s) && Inv(CloseStep(s))
  {
    KnownHere(s);
    var t := CloseStep(s);
    forall id | id in t.attempts
      ensures id in s.attempts && Fine(t.attempts[id], IsCurrent(s, id) && !Dies(s, id), true)
      ensures t.attempts[id].locked == (s.attempts[id].locked && !Dies(s, id))
      ensures t.attempts[id].profile == s.attempts[id].profile
    {
      ClosingAttempt(s, id);
      hide Inv, Fine;
    }
    CloseCurrent(s);
    CloseLocks(s);
    assert AllFine(t) by { hide Fine, Inv, Dies, Known, LocksFit, CloseStep; }
    hide Fine, LocksFit, Known, AllFine;
  }

  lemma CloseCurrent(s: System)
    requires Known(s)
    ensures Known(CloseStep(s)) && CloseStep(s).closed
    ensures forall id :: id in s.attempts ==>
        id in CloseStep(s).attempts && (IsCurrent(CloseStep(s), id) <==> IsCurrent(s, id) && !Dies(s, id))
  {
  }

  lemma CloseLocks(s: System)
    requires Inv(s)
    requires forall id :: id in s.attempts ==>
               id in CloseStep(s).attempts && CloseStep(s).attempts[id].profile == s.attempts[id].profile
               && CloseStep(s).attempts[id].locked == (s.attempts[id].locked && !Dies(s, id))
    ensures LocksFit(CloseStep(s))
  {
    hide Fine, AllFine;
    var t := CloseStep(s);
    forall p | p in s.current ensures s.current[p] in s.attempts && s.attempts[s.current[p]].profile == p {
    }
    forall p | p in s.locks ensures p in t.locks <==> (s.locks[p].ByAttempt? ==> !Dies(s, s.locks[p].id)) {
    }
    assert forall p :: p in t.locks ==> p in s.locks && t.locks[p] == s.locks[p];
    hide CloseStep, Dies;
  }

  lemma DirectoryKeepsInv(s: System, e: Event)
    requires Inv(s) && Enabled(s, e)
    requires e.DirectoryBegin? || e.DirectoryLock? || e.DirectoryCall? || e.DirectoryEnd?
    ensures Known(s) && Inv(Apply(s, e).0)
  {
    hide Fine;
    var t := Apply(s, e).0;
    assert t.attempts == s.attempts && t.current == s.current && t.closed == s.closed;
    assert AllFine(t) by { hide LocksFit; }
    DirectoryLocks(s, e);
    hide LocksFit, AllFine;
  }

  ghost predicate Holds(w: Directory) {
    w.stage == Holding || w.stage == Calling
  }

  // A directory import that gains, keeps or gives up its profile's lock.
  lemma DirectoryLocks(s: System, e: Event)
    requires Inv(s) && Enabled(s, e)
    requires e.DirectoryBegin? || e.DirectoryLock? || e.DirectoryCall? || e.DirectoryEnd?
    ensures LocksFit(Apply(s, e).0)
  {
    hide Fine, AllFine, Known;
    var d, t := e.directory, Apply(s, e).0;
    var w := t.directories[d];
    assert t.attempts == s.attempts && t.directories == s.directories[d := w];
    assert d in s.directories ==> s.directories[d].profile == w.profile;
    assert Holds(w) ==>
        (w.profile !in s.locks || s.locks[w.profile] == ByDirectory(d))
        && t.locks == s.locks[w.profile := ByDirectory(d)];
    assert !Holds(w) ==>
        t.locks == if w.profile in s.locks
            && s.locks[w.profile] == ByDirectory(d) then s.locks - {w.profile} else s.locks;
    hide Apply;
    DirectoryRewritten(s, t, d, w);
  }

  lemma DirectoryRewritten(s: System, t: System, d: DirectoryId, w: Directory)
    requires LocksFit(s) && t.attempts == s.attempts && t.directories == s.directories[d := w]
    requires d in s.directories ==> s.directories[d].profile == w.profile
    requires Holds(w) ==>
        (w.profile !in s.locks || s.locks[w.profile] == ByDirectory(d))
        && t.locks == s.locks[w.profile := ByDirectory(d)]
    requires !Holds(w) ==>
      t.locks == if w.profile in s.locks && s.locks[w.profile] == ByDirectory(d) then s.locks - {w.profile} else s.locks
    ensures LocksFit(t)
  {
  }

  /** Every step of every interleaving keeps the invariant. */
  lemma StepKeepsInv(s: System, e: Event)
    requires Inv(s) && Enabled(s, e)
    ensures Known(s) && Inv(Apply(s, e).0)
  {
    KnownHere(s);
    hide Inv, StartStep, StageBeginStep, StageEndStep, ExecuteBeginStep, FinishStep, CancelStep, CloseStep, Lookup,
         DirectoryLockStep, DirectoryEndStep;
    match e
    case Start(id, profile, named, now) => StartKeepsInv(s, id, profile, named, now);
    case StageBegin(profile, id, expected, now, lockable) => StageBeginKeepsInv(s, profile, id, expected, now,
        lockable);
    case StageEnd(id, staged) => StageEndKeepsInv(s, id, staged);
    case ExecuteBegin(profile, id, expected, now) => ExecuteBeginKeepsInv(s, profile, id, expected, now);
    case Cancel(profile, id, expected, now) => CancelKeepsInv(s, profile, id, expected, now);
    case Status(profile, id, now) => LookupKeepsInv(s, profile, id, now);
    case Finish(id) => FinishKeepsInv(s, id);
    case Close => CloseKeepsInv(s);
    case DirectoryBegin(_, _) => DirectoryKeepsInv(s, e);
    case DirectoryLock(_, _) => DirectoryKeepsInv(s, e);
    case DirectoryCall(_) => DirectoryKeepsInv(s, e);
    case DirectoryEnd(_) => DirectoryKeepsInv(s, e);
    case _ => WorkKeepsInv(s, e);
  }

  // Whole runs --------------------------------------------------------------------------------------------

  /** `states` is a run from the empty coordinator under an arbitrary interleaving of steps. */
  ghost predicate Run(states: seq<System>, events: seq<Event>) {
    && |states| == |events| + 1 && Initial(states[0])
    && forall i :: 0 <= i < |events| ==> Moves(states[i], events[i], states[i + 1])
  }

  ghost predicate Moves(s: System, e: Event, s': System) {
    Known(s) && Enabled(s, e) && s' == Apply(s, e).0
  }

  lemma MoveKeepsInv(s: System, e: Event, s': System)
    requires Inv(s) && Moves(s, e, s')
    ensures Inv(s')
  {
    hide Inv, Known;
    StepKeepsInv(s, e);
  }

  lemma {:induction false} RunKeepsInv(states: seq<System>, events: seq<Event>, k: nat)
    requires Run(states, events) && k < |states|
    ensures Inv(states[k])
  {
    hide Moves;
    if k > 0 {
      hide Inv;
      RunKeepsInv(states, events, k - 1);
      assert Moves(states[k - 1], events[k - 1], states[k]);
      MoveKeepsInv(states[k - 1], events[k - 1], states[k]);
    }
  }

  // What steps do to one attempt: its history grows and its version names its state.
  ghost predicate Older(a: Attempt, b: Attempt) {
    && b.profile == a.profile && a.version <= b.version
    && (a.version == b.version ==> b.state == a.state && b.failure == a.failure)
    && (a.log.acknowledged ==> b.log.acknowledged)
    && a.log.calls <= b.log.calls && a.log.closes <= b.log.closes && (a.log.imported ==> b.log.imported)
  }

  // The same for a step that is not the return of an import.
  ghost predicate Grows(a: Attempt, b: Attempt) {
    Older(a, b) && (b.log.imported ==> a.log.imported)
  }

  lemma GrowsTogether(a: Attempt, b: Attempt, c: Attempt)
    requires Grows(a, b) && Grows(b, c)
    ensures Grows(a, c)
  {
  }

  lemma TransitionsGrow(a: Attempt, now: int, count: nat, outcome: Outcome, available: bool, current: bool,
    closed: bool)
    requires Fine(a, current, closed)
    ensures Grows(a, Touch(a, now)) && Grows(a, BeginStage(a)) && Grows(a, EndStage(a)) && Grows(a, CancelStage(a))
    ensures Grows(a, AcceptFiles(a, count)) && Grows(a, BeginExecute(a)) && Grows(a, StopWith(a, outcome))
    ensures Grows(a, EndParse(a, outcome)) && Grows(a, BeginImport(a, available)) && Grows(a, Conclude(a, outcome))
    ensures Grows(a, AcknowledgeCancel(a)) && (a.work == InImport ==> Older(a, EndImport(a, outcome)))
  {
  }

  lemma DroppingGrows(a: Attempt)
    ensures Grows(a, Dropped(a)) && Grows(a, a.(locked := false)) && Grows(a, a)
  {
  }

  ghost predicate AllGrow(s: System, t: System) {
    forall id :: id in s.attempts ==> id in t.attempts && Grows(s.attempts[id], t.attempts[id])
  }

  lemma AllGrowTogether(s: System, t: System, u: System)
    requires AllGrow(s, t) && AllGrow(t, u)
    ensures AllGrow(s, u)
  {
    hide Grows;
    forall id | id in s.attempts ensures id in u.attempts && Grows(s.attempts[id], u.attempts[id]) {
      GrowsTogether(s.attempts[id], t.attempts[id], u.attempts[id]);
    }
  }

  lemma PutGrows(s: System, id: AttemptId, b: Attempt)
    requires id in s.attempts ==> Grows(s.attempts[id], b)
    ensures AllGrow(s, Put(s, id, b))
  {
    forall x | x in s.attempts ensures Grows(s.attempts[x], s.attempts[x]) {
      DroppingGrows(s.attempts[x]);
    }
    hide Grows;
  }

  lemma CleanupGrows(s: System, id: AttemptId)
    requires id in s.attempts
    ensures AllGrow(s, Cleanup(s, id)) && AllGrow(s, Release(s, id))
    ensures AllGrow(s, s)
  {
    forall x | x in s.attempts ensures Grows(s.attempts[x], s.attempts[x]) {
      DroppingGrows(s.attempts[x]);
    }
    DroppingGrows(s.attempts[id]);
    CleanupAttempts(s, id);
    hide Grows, Cleanup, Release, Dropped;
  }

  lemma CleanupAttempts(s: System, id: AttemptId)
    requires id in s.attempts
    ensures Cleanup(s, id).attempts == s.attempts[id := Dropped(s.attempts[id])]
    ensures Release(s, id).attempts == s.attempts[id := s.attempts[id].(locked := false)]
  {
  }

  // A change of one attempt, then a cleanup of it.
  lemma PutCleanupGrows(s: System, id: AttemptId, b: Attempt)
    requires id in s.attempts && Grows(s.attempts[id], b)
    ensures AllGrow(s, Cleanup(Put(s, id, b), id)) && AllGrow(s, Release(Put(s, id, b), id))
        && AllGrow(s, Put(s, id, b))
  {
    PutGrows(s, id, b);
    CleanupGrows(Put(s, id, b), id);
    hide AllGrow, Cleanup, Release, Grows;
    AllGrowTogether(s, Put(s, id, b), Cleanup(Put(s, id, b), id));
    AllGrowTogether(s, Put(s, id, b), Release(Put(s, id, b), id));
  }

  lemma LookupGrows(s: System, profile: ProfileId, id: AttemptId, now: int)
    requires Inv(s) && Known(s)
    ensures AllGrow(s, Lookup(s, profile, id, now).0)
  {
    hide AllGrow, Inv, Fine, Grows, Cleanup, Touch, Put, Known, Forget;
    NothingGrowsBack(s);
    if profile in s.current && s.current[profile] == id {
      CurrentHere(s, profile);
      TransitionsGrow(s.attempts[id], now, 0, Error(Unmapped), false, true, s.closed);
      CleanupGrows(s, id);
      PutGrows(s, id, Touch(s.attempts[id], now));
      ForgetGrows(s, Cleanup(s, id), profile);
    }
  }

  lemma ForgetGrows(s: System, t: System, profile: ProfileId)
    requires AllGrow(s, t)
    ensures AllGrow(s, Forget(t, profile))
  {
    hide Grows;
  }

  lemma LocksDoNotMatter(s: System, t: System, id: AttemptId, b: Attempt, locks: map<ProfileId, Holder>)
    requires AllGrow(s, t) && AllGrow(t, Put(t, id, b))
    ensures AllGrow(s, Put(t, id, b).(locks := locks))
  {
    AllGrowTogether(s, t, Put(t, id, b));
    hide Grows;
  }

  lemma FoundGrows(s: System, profile: ProfileId, id: AttemptId, now: int)
    requires Inv(s) && Known(s)
    ensures
      var (t, found) := Lookup(s, profile, id, now);
      AllGrow(s, t) && (found ==> id in t.attempts && Fine(t.attempts[id], true, t.closed))
  {
    LookupGrows(s, profile, id, now);
    LookupKeepsInv(s, profile, id, now);
    hide AllGrow, Inv, Known, Lookup, Fine;
  }

  lemma StageBeginGrows(s: System, profile: ProfileId, id: AttemptId, expected: nat, now: int, lockable: bool)
    requires Inv(s) && Known(s)
    ensures AllGrow(s, StageBeginStep(s, profile, id, expected, now, lockable).0)
  {
    hide AllGrow, Inv, Known, Lookup, Fine, BeginStage, Grows, Put;
    FoundGrows(s, profile, id, now);
    var (t, found) := Lookup(s, profile, id, now);
    if found {
      var a := t.attempts[id];
      TransitionsGrow(a, 0, 0, Error(Unmapped), false, true, t.closed);
      PutGrows(t, id, BeginStage(a));
      LocksDoNotMatter(s, t, id, BeginStage(a), t.locks[profile := ByAttempt(id)]);
    }
  }

  lemma ExecuteBeginGrows(s: System, profile: ProfileId, id: AttemptId, expected: nat, now: int)
    requires Inv(s) && Known(s)
    ensures AllGrow(s, ExecuteBeginStep(s, profile, id, expected, now).0)
  {
    hide AllGrow, Inv, Known, Lookup, Fine, BeginExecute, Executable, Grows, Put;
    FoundGrows(s, profile, id, now);
    var (t, found) := Lookup(s, profile, id, now);
    if found {
      var a := t.attempts[id];
      TransitionsGrow(a, 0, 0, Error(Unmapped), false, true, t.closed);
      PutGrows(t, id, BeginExecute(a));
      AllGrowTogether(s, t, Put(t, id, BeginExecute(a)));
    }
  }

  lemma CancelGrows(s: System, profile: ProfileId, id: AttemptId, expected: nat, now: int)
    requires Inv(s) && Known(s)
    ensures AllGrow(s, CancelStep(s, profile, id, expected, now).0)
  {
    hide AllGrow, Inv, Known, Lookup, Fine, AcknowledgeCancel, Cancelable, Grows, Put, Cleanup;
    FoundGrows(s, profile, id, now);
    var (t, found) := Lookup(s, profile, id, now);
    if found {
      var a := t.attempts[id];
      TransitionsGrow(a, 0, 0, Error(Unmapped), false, true, t.closed);
      PutCleanupGrows(t, id, AcknowledgeCancel(a));
      assert id in Put(t, id, AcknowledgeCancel(a)).attempts by { PutHas(t, id, AcknowledgeCancel(a)); }
      AllGrowTogether(s, t, Put(t, id, AcknowledgeCancel(a)));
      AllGrowTogether(s, t, Cleanup(Put(t, id, AcknowledgeCancel(a)), id));
    }
  }

  lemma PutHas(s: System, id: AttemptId, b: Attempt)
    ensures id in Put(s, id, b).attempts
  {
  }

  lemma StageEndGrows(s: System, id: AttemptId, staged: StageOutcome)
    requires Inv(s) && Enabled(s, StageEnd(id, staged))
    ensures AllGrow(s, StageEndStep(s, id, staged).0)
  {
    RunningHere(s, id);
    var a := s.attempts[id];
    var count := if staged.Staged? then staged.count else 0;
    hide AllGrow, Inv, Fine, Cleanup, Release, Grows, EndStage, CancelStage, AcceptFiles, Forget;
    TransitionsGrow(a, 0, count, Error(Unmapped), false, true, s.closed);
    if s.closed {
      PutCleanupGrows(s, id, EndStage(a));
      ForgetGrows(s, Cleanup(Put(s, id, EndStage(a)), id), a.profile);
    } else if a.cancelRequested || staged == StageError(ImportCanceled) {
      PutCleanupGrows(s, id, CancelStage(a));
    } else if staged.StageError? {
      PutCleanupGrows(s, id, EndStage(a));
    } else {
      PutCleanupGrows(s, id, AcceptFiles(a, count));
    }
  }

  lemma FinishGrows(s: System, id: AttemptId)
    requires Inv(s) && Enabled(s, Finish(id))
    ensures AllGrow(s, FinishStep(s, id, s.attempts[id].work.outcome).0)
  {
    RunningHere(s, id);
    var a := s.attempts[id];
    hide AllGrow, Inv, Fine, Cleanup, Grows, Conclude;
    TransitionsGrow(a, 0, 0, a.work.outcome, false, true, s.closed);
    PutCleanupGrows(s, id, Conclude(a, a.work.outcome));
  }

  // Steps of the goroutine that works on an attempt.
  lemma WorkGrows(s: System, e: Event)
    requires Inv(s) && Known(s) && Enabled(s, e)
    requires e.Progress? || e.ParseEnd? || e.ImportCall? || e.Panic?
    ensures AllGrow(s, Apply(s, e).0)
  {
    RunningHere(s, e.id);
    var a := s.attempts[e.id];
    hide AllGrow, Inv, Known, Fine, Put, Grows, Touch, StopWith, EndParse, BeginImport;
    hide StartStep, StageBeginStep, StageEndStep, ExecuteBeginStep, FinishStep, CancelStep, CloseStep, Lookup;
    match e
    case Progress(id, now) =>
      TransitionsGrow(a, now, 0, Error(Unmapped), false, true, s.closed);
      PutGrows(s, id, Touch(a, now));
    case ParseEnd(id, parsed) =>
      TransitionsGrow(a, 0, 0, parsed, false, true, s.closed);
      PutGrows(s, id, EndParse(a, parsed));
    case ImportCall(id, available) =>
      TransitionsGrow(a, 0, 0, Error(Unmapped), available, true, s.closed);
      PutGrows(s, id, BeginImport(a, available));
    case Panic(id) =>
      TransitionsGrow(a, 0, 0, Error(Unmapped), false, true, s.closed);
      PutGrows(s, id, StopWith(a, Error(Unmapped)));
  }

  lemma ReapedGrows(s: System, profile: ProfileId, now: int)
    requires Known(s)
    ensures AllGrow(s, Reaped(s, profile, now))
  {
    NothingGrowsBack(s);
    if profile in s.current && Expired(s.attempts[s.current[profile]], now) {
      CleanupGrows(s, s.current[profile]);
      hide AllGrow, Cleanup, Forget, Known;
      ForgetGrows(s, Cleanup(s, s.current[profile]), profile);
    }
  }

  lemma AddedGrows(s: System, t: System, id: AttemptId, b: Attempt, current: map<ProfileId, AttemptId>)
    requires AllGrow(s, t) && id !in s.attempts
    ensures AllGrow(s, Put(t, id, b).(current := current))
  {
    hide Grows;
  }

  lemma StartGrows(s: System, id: AttemptId, profile: ProfileId, named: bool, now: int)
    requires Inv(s) && Known(s) && id !in s.attempts
    ensures AllGrow(s, StartStep(s, id, profile, named, now).0)
  {
    hide Reaped, Inv, Known, NewAttempt, AllGrow, Put, Terminal;
    NothingGrowsBack(s);
    ReapedGrows(s, profile, now);
    var t := Reaped(s, profile, now);
    AddedGrows(s, t, id, NewAttempt(profile, now), t.current[profile := id]);
  }

  lemma NothingGrowsBack(s: System)
    ensures AllGrow(s, s)
  {
  }

  lemma CloseGrows(s: System)
    requires Known(s)
    ensures AllGrow(s, CloseStep(s))
  {
    forall x | x in s.attempts
        ensures Grows(s.attempts[x], s.attempts[x]) && Grows(s.attempts[x], Dropped(s.attempts[x]))
    {
      DroppingGrows(s.attempts[x]);
    }
    hide Grows, CloseTarget, Known;
  }

  lemma StepGrows(s: System, e: Event, s': System)
    requires Inv(s) && Moves(s, e, s') && !e.ImportEnd?
    ensures AllGrow(s, s')
  {
    hide Inv, Known, AllGrow, StartStep, StageBeginStep, StageEndStep, ExecuteBeginStep, FinishStep, CancelStep,
         CloseStep, Lookup, DirectoryLockStep, DirectoryEndStep;
    match e
    case Start(id, profile, named, now) => StartGrows(s, id, profile, named, now);
    case StageBegin(profile, id, expected, now, lockable) => StageBeginGrows(s, profile, id, expected, now, lockable);
    case StageEnd(id, staged) => StageEndGrows(s, id, staged);
    case ExecuteBegin(profile, id, expected, now) => ExecuteBeginGrows(s, profile, id, expected, now);
    case Cancel(profile, id, expected, now) => CancelGrows(s, profile, id, expected, now);
    case Status(profile, id, now) => LookupGrows(s, profile, id, now);
    case Finish(id) => FinishGrows(s, id);
    case Close => CloseGrows(s);
    case DirectoryBegin(_, _) => DirectoryGrows(s, e);
    case DirectoryLock(_, _) => DirectoryGrows(s, e);
    case DirectoryCall(_) => DirectoryGrows(s, e);
    case DirectoryEnd(_) => DirectoryGrows(s, e);
    case _ => WorkGrows(s, e);
  }

  lemma DirectoryGrows(s: System, e: Event)
    requires Known(s) && Enabled(s, e)
    requires e.DirectoryBegin? || e.DirectoryLock? || e.DirectoryCall? || e.DirectoryEnd?
    ensures AllGrow(s, Apply(s, e).0)
  {
    NothingGrowsBack(s);
    assert Apply(s, e).0.attempts == s.attempts;
    hide Grows, Known, Apply;
  }

  ghost predicate AllOlder(s: System, t: System) {
    forall id :: id in s.attempts ==> id in t.attempts && Older(s.attempts[id], t.attempts[id])
  }

  lemma AllOlderTogether(s: System, t: System, u: System)
    requires AllOlder(s, t) && AllOlder(t, u)
    ensures AllOlder(s, u)
  {
  }

  lemma GrowsIsOlder(s: System, t: System)
    requires AllGrow(s, t)
    ensures AllOlder(s, t)
  {
    hide Older;
  }

  lemma ImportEndIsOlder(s: System, id: AttemptId, installed: Outcome)
    requires Inv(s) && Enabled(s, ImportEnd(id, installed))
    ensures AllOlder(s, Put(s, id, EndImport(s.attempts[id], installed)))
  {
    RunningHere(s, id);
    TransitionsGrow(s.attempts[id], 0, 0, installed, false, true, s.closed);
    OlderThanItself(s);
    hide Inv, Fine, EndImport, Older, IsCurrent, Known;
  }

  lemma StepIsOlder(s: System, e: Event, s': System)
    requires Inv(s) && Moves(s, e, s')
    ensures AllOlder(s, s')
  {
    if e.ImportEnd? {
      hide Inv, Known, AllOlder, EndImport;
      ImportEndIsOlder(s, e.id, e.installed);
    } else {
      hide *;
      StepGrows(s, e, s');
      GrowsIsOlder(s, s');
    }
  }

  lemma RunStep(states: seq<System>, events: seq<Event>, k: nat)
    requires Run(states, events) && k < |events|
    ensures Inv(states[k]) && Moves(states[k], events[k], states[k + 1])
  {
    hide Moves;
    RunKeepsInv(states, events, k);
  }

  lemma OlderThanItself(s: System)
    ensures AllOlder(s, s)
  {
  }

  lemma {:induction false} RunGrows(states: seq<System>, events: seq<Event>, i: nat, j: nat)
    requires Run(states, events) && i <= j < |states|
    ensures AllOlder(states[i], states[j])
    decreases j
  {
    hide *;
    RunLength(states, events);
    if i == j {
      OlderThanItself(states[i]);
    } else {
      RunGrows(states, events, i, j - 1);
      RunStep(states, events, j - 1);
      StepIsOlder(states[j - 1], events[j - 1], states[j]);
      AllOlderTogether(states[i], states[j - 1], states[j]);
    }
  }

  lemma RunLength(states: seq<System>, events: seq<Event>)
    requires Run(states, events)
    ensures |states| == |events| + 1
  {
    hide Moves;
  }

  // What the run theorems read off one step --------------------------------------------------------------

  ghost predicate Acknowledges(s: System, e: Event, id: AttemptId)
    requires Known(s) && Enabled(s, e)
  {
    e.Cancel? && e.id == id && Apply(s, e).1 == Accepted
  }

  lemma CancelIsRecorded(s: System, e: Event, s': System, id: AttemptId)
    requires Inv(s) && Moves(s, e, s') && Acknowledges(s, e, id)
    ensures id in s'.attempts && s'.attempts[id].log.acknowledged
  {
    LookupKeepsInv(s, e.profile, id, e.now);
    var t := Lookup(s, e.profile, id, e.now).0;
    hide Inv, Lookup, Cleanup, Known, CloseTarget;
    hide StartStep, StageBeginStep, StageEndStep, ExecuteBeginStep, FinishStep, CloseStep;
    CleanupAttempts(Put(t, id, AcknowledgeCancel(t.attempts[id])), id);
  }

  lemma CallIsRecorded(s: System, e: Event, s': System)
    requires Inv(s) && Moves(s, e, s') && e.ImportCall? && e.available
    ensures e.id in s.attempts && s.attempts[e.id].work == Ready && s.attempts[e.id].state == Installing
    ensures e.id in s'.attempts && s'.attempts[e.id].log.calls > 0
  {
    RunningHere(s, e.id);
    hide Inv, Known;
  }

  lemma FineAt(states: seq<System>, events: seq<Event>, k: nat, id: AttemptId)
    requires Run(states, events) && k < |states| && id in states[k].attempts
    ensures Fine(states[k].attempts[id], IsCurrent(states[k], id), states[k].closed)
  {
    RunKeepsInv(states, events, k);
    hide Inv, Fine, Run;
    FineHere(states[k], id);
  }

  lemma MoveAt(states: seq<System>, events: seq<Event>, k: nat)
    requires Run(states, events) && k < |events|
    ensures |states| == |events| + 1 && Inv(states[k]) && Moves(states[k], events[k], states[k + 1])
  {
    hide Moves;
    RunKeepsInv(states, events, k);
  }

  lemma GrownAt(states: seq<System>, events: seq<Event>, i: nat, j: nat, id: AttemptId)
    requires Run(states, events) && i <= j < |states| && id in states[i].attempts
    ensures id in states[j].attempts && Older(states[i].attempts[id], states[j].attempts[id])
  {
    hide Older, Run;
    RunGrows(states, events, i, j);
  }

  /** In every interleaving, an attempt whose cancel was acknowledged never has its import called:
  neither later nor, since the cancel would have been refused, earlier. */
  lemma AcknowledgedCancelNeverImports(states: seq<System>, events: seq<Event>, i: nat, j: nat, id: AttemptId)
    requires Run(states, events) && i < |events| && j < |events|
    requires Known(states[i]) && Enabled(states[i], events[i]) && Acknowledges(states[i], events[i], id)
    ensures events[j] != ImportCall(id, true)
  {
    hide Run, Inv, Known, Apply, Fine, Older;
    MoveAt(states, events, i);
    MoveAt(states, events, j);
    CancelIsRecorded(states[i], events[i], states[i + 1], id);
    var canceled := states[i + 1].attempts[id];
    FineAt(states, events, i + 1, id);
    CanceledWithoutCall(canceled, IsCurrent(states[i + 1], id), states[i + 1].closed);
    if events[j] == ImportCall(id, true) {
      CallIsRecorded(states[j], events[j], states[j + 1]);
      if i < j {
        GrownAt(states, events, i + 1, j, id);
        FineAt(states, events, j, id);
        AcknowledgedNeverReady(canceled, states[j].attempts[id], IsCurrent(states[j], id), states[j].closed);
      } else if j < i {
        GrownAt(states, events, j + 1, i + 1, id);
        CallsGrow(states[j + 1].attempts[id], canceled);
      }
    }
  }

  lemma CanceledWithoutCall(a: Attempt, current: bool, closed: bool)
    requires a.log.acknowledged && Fine(a, current, closed)
    ensures a.log.calls == 0
  {
  }

  lemma CallsGrow(a: Attempt, b: Attempt)
    requires Older(a, b)
    ensures a.log.calls <= b.log.calls
  {
  }

  lemma AcknowledgedNeverReady(a: Attempt, b: Attempt, current: bool, closed: bool)
    requires a.log.acknowledged && Older(a, b) && Fine(b, current, closed)
    ensures b.work != Ready
  {
  }

  /** Equal versions of one attempt, at any two moments of a run, mean equal states. */
  lemma VersionNamesState(states: seq<System>, events: seq<Event>, i: nat, j: nat, id: AttemptId)
    requires Run(states, events) && i < |states| && j < |states|
    requires id in states[i].attempts && id in states[j].attempts
    requires states[i].attempts[id].version == states[j].attempts[id].version
    ensures states[i].attempts[id].state == states[j].attempts[id].state
    ensures states[i].attempts[id].failure == states[j].attempts[id].failure
  {
    hide Run;
    if i <= j {
      GrownAt(states, events, i, j, id);
    } else {
      GrownAt(states, events, j, i, id);
    }
  }

  ghost predicate SomeImportSucceeded(events: seq<Event>, k: nat, id: AttemptId)
    requires k <= |events|
  {
    exists j :: 0 <= j < k && events[j] == ImportEnd(id, Outcome.Success)
  }

  lemma SuccessIsRecorded(s: System, e: Event, s': System, id: AttemptId)
    requires Inv(s) && Moves(s, e, s') && e == ImportEnd(id, Outcome.Success)
    ensures id in s'.attempts && s'.attempts[id].log.imported
  {
    hide Inv, Known;
  }

  // A new attempt and a step other than the return of its import leave the record unset.
  lemma RecordNeedsSuccess(s: System, e: Event, s': System, id: AttemptId)
    requires Inv(s) && Moves(s, e, s') && id in s'.attempts && s'.attempts[id].log.imported
    requires e != ImportEnd(id, Outcome.Success)
    ensures id in s.attempts && s.attempts[id].log.imported
  {
    if id in s.attempts {
      if e.ImportEnd? {
        RunningHere(s, e.id);
        hide Inv, Known;
      } else {
        hide Inv, Moves;
        StepGrows(s, e, s');
      }
    } else {
      hide Inv, Moves;
      NewcomersAreNew(s, e, s', id);
    }
  }

  lemma CleanupKeys(s: System, id: AttemptId, b: Attempt)
    requires id in s.attempts
    ensures Put(s, id, b).attempts.Keys == s.attempts.Keys
    ensures Cleanup(Put(s, id, b), id).attempts.Keys == s.attempts.Keys
    ensures Release(Put(s, id, b), id).attempts.Keys == s.attempts.Keys
  {
    hide CloseTarget;
  }

  lemma RequestKeys(s: System, e: Event)
    requires Known(s) && (e.StageBegin? || e.ExecuteBegin? || e.Cancel? || e.Status?)
    ensures Apply(s, e).0.attempts.Keys == s.attempts.Keys
  {
    LookupKeys(s, e.profile, e.id, e.now);
    hide Known, Lookup, StageBeginStep, ExecuteBeginStep, CancelStep;
    match e
    case StageBegin(profile, id, expected, now, lockable) => StageBeginKeys(s, profile, id, expected, now, lockable);
    case ExecuteBegin(profile, id, expected, now) => ExecuteBeginKeys(s, profile, id, expected, now);
    case Cancel(profile, id, expected, now) => CancelKeys(s, profile, id, expected, now);
    case Status(profile, id, now) =>
  }

  lemma StageBeginKeys(s: System, profile: ProfileId, id: AttemptId, expected: nat, now: int, lockable: bool)
    requires Known(s)
    ensures StageBeginStep(s, profile, id, expected, now, lockable).0.attempts.Keys == s.attempts.Keys
  {
    LookupKeys(s, profile, id, now);
    hide Known, Lookup, BeginStage;
  }

  lemma ExecuteBeginKeys(s: System, profile: ProfileId, id: AttemptId, expected: nat, now: int)
    requires Known(s)
    ensures ExecuteBeginStep(s, profile, id, expected, now).0.attempts.Keys == s.attempts.Keys
  {
    LookupKeys(s, profile, id, now);
    hide Known, Lookup, BeginExecute, Executable;
  }

  lemma CancelKeys(s: System, profile: ProfileId, id: AttemptId, expected: nat, now: int)
    requires Known(s)
    ensures CancelStep(s, profile, id, expected, now).0.attempts.Keys == s.attempts.Keys
  {
    LookupKeys(s, profile, id, now);
    var (t, found) := Lookup(s, profile, id, now);
    hide Known, Lookup, AcknowledgeCancel, Cancelable, Cleanup;
    if found {
      CleanupKeys(t, id, AcknowledgeCancel(t.attempts[id]));
    }
  }

  lemma OnlyStartAdds(s: System, e: Event, s': System)
    requires Moves(s, e, s') && !e.Start?
    ensures s'.attempts.Keys == s.attempts.Keys
  {
    hide Known, Touch, EndStage, CancelStage, AcceptFiles, StopWith, EndParse, BeginImport, EndImport, Conclude,
         CloseTarget,
        StageBeginStep, ExecuteBeginStep, CancelStep, Lookup, Cleanup, Release;
    if e.StageBegin? || e.ExecuteBegin? || e.Cancel? || e.Status? {
      RequestKeys(s, e);
    } else if e.StageEnd? {
      var a := s.attempts[e.id];
      CleanupKeys(s, e.id, EndStage(a));
      CleanupKeys(s, e.id, CancelStage(a));
    } else if e.Finish? {
      CleanupKeys(s, e.id, Conclude(s.attempts[e.id], s.attempts[e.id].work.outcome));
    }
  }

  lemma NewcomersAreNew(s: System, e: Event, s': System, id: AttemptId)
    requires Inv(s) && Moves(s, e, s') && id in s'.attempts && id !in s.attempts
    ensures !s'.attempts[id].log.imported
  {
    if e.Start? {
      ReapingKeepsInv(s, e.profile, e.now);
      hide Inv, Known, Reaped;
    } else {
      hide Inv, Moves;
      OnlyStartAdds(s, e, s');
    }
  }

  lemma LookupKeys(s: System, profile: ProfileId, id: AttemptId, now: int)
    requires Known(s)
    ensures Lookup(s, profile, id, now).0.attempts.Keys == s.attempts.Keys
  {
  }

  lemma SuccessCounts(events: seq<Event>, k: nat, id: AttemptId)
    requires k < |events|
    ensures SomeImportSucceeded(events, k + 1, id) <==>
            SomeImportSucceeded(events, k, id) || events[k] == ImportEnd(id, Outcome.Success)
  {
  }

  lemma RunStartsEmpty(states: seq<System>, events: seq<Event>)
    requires Run(states, events)
    ensures states[0].attempts == map[]
  {
    hide Moves;
  }

  lemma RecordStays(s: System, t: System, id: AttemptId)
    requires AllOlder(s, t) && id in s.attempts && s.attempts[id].log.imported
    ensures id in t.attempts && t.attempts[id].log.imported
  {
  }

  lemma {:induction false} RecordedExactlyOnSuccess(states: seq<System>, events: seq<Event>, k: nat, id: AttemptId)
    requires Run(states, events) && k < |states| && id in states[k].attempts
    ensures states[k].attempts[id].log.imported <==> SomeImportSucceeded(events, k, id)
  {
    hide *;
    RunStartsEmpty(states, events);
    RunLength(states, events);
    if k > 0 {
      RunStep(states, events, k - 1);
      SuccessCounts(events, k - 1, id);
      var s, e := states[k - 1], events[k - 1];
      if id in s.attempts {
        RecordedExactlyOnSuccess(states, events, k - 1, id);
        if s.attempts[id].log.imported {
          StepIsOlder(s, e, states[k]);
          RecordStays(s, states[k], id);
        }
      } else {
        NoSuccessBefore(states, events, k - 1, id);
      }
      if e == ImportEnd(id, Outcome.Success) {
        SuccessIsRecorded(s, e, states[k], id);
      } else if states[k].attempts[id].log.imported {
        RecordNeedsSuccess(s, e, states[k], id);
      }
    }
  }

  lemma NoSuccessBefore(states: seq<System>, events: seq<Event>, k: nat, id: AttemptId)
    requires Run(states, events) && k < |states| && id !in states[k].attempts
    ensures !SomeImportSucceeded(events, k, id)
  {
    if SomeImportSucceeded(events, k, id) {
      var j :| 0 <= j < k && events[j] == ImportEnd(id, Outcome.Success);
      MoveAt(states, events, j);
      SuccessIsRecorded(states[j], events[j], states[j + 1], id);
      RunGrows(states, events, j + 1, k);
      hide Inv, Moves, Run;
    }
  }

  /** When its work has ended, an attempt is complete exactly when its import returned successfully. */
  lemma CompleteExactlyWhenImported(states: seq<System>, events: seq<Event>, k: nat, id: AttemptId)
    requires Run(states, events) && k < |states| && id in states[k].attempts && !states[k].attempts[id].running
    ensures states[k].attempts[id].state == Complete <==> SomeImportSucceeded(events, k, id)
  {
    RecordedExactlyOnSuccess(states, events, k, id);
    FineAt(states, events, k, id);
    hide Run, SomeImportSucceeded;
  }

  // Exclusion and release ---------------------------------------------------------------------------------

  /** Works on the profile: a running attempt, or a directory import that has the lock. */
  ghost predicate WorksOn(s: System, h: Holder, profile: ProfileId) {
    match h
    case ByAttempt(id) => id in s.attempts && s.attempts[id].profile == profile
        && (s.attempts[id].running || s.attempts[id].locked)
    case ByDirectory(d) => d in s.directories && s.directories[d].profile == profile && Holds(s.directories[d])
  }

  /** At most one attempt or directory import per profile is running or holds the import lock. */
  lemma OneImporterPerProfile(states: seq<System>, events: seq<Event>, k: nat, a: Holder, b: Holder, profile: ProfileId)
    requires Run(states, events) && k < |states|
    requires WorksOn(states[k], a, profile) && WorksOn(states[k], b, profile)
    ensures a == b && profile in states[k].locks && states[k].locks[profile] == a
  {
    RunKeepsInv(states, events, k);
    hide Run;
    var s := states[k];
    if a.ByAttempt? {
      FineHere(s, a.id);
    }
    if b.ByAttempt? {
      FineHere(s, b.id);
    }
  }

  /** Whenever an import boundary is called, the caller's target is open and it alone has the lock. */
  lemma ImportsHoldTheLock(states: seq<System>, events: seq<Event>, k: nat)
    requires Run(states, events) && k < |events|
    ensures events[k].ImportCall? && events[k].available ==>
              var id := events[k].id;
              && id in states[k].attempts && states[k].attempts[id].open
              && states[k].attempts[id].profile in states[k].locks
              && states[k].locks[states[k].attempts[id].profile] == ByAttempt(id)
    ensures events[k].DirectoryCall? ==>
              var d := events[k].directory;
              && d in states[k].directories && states[k].directories[d].profile in states[k].locks
              && states[k].locks[states[k].directories[d].profile] == ByDirectory(d)
  {
    MoveAt(states, events, k);
    hide Run;
    if events[k].ImportCall? {
      RunningHere(states[k], events[k].id);
      FineHere(states[k], events[k].id);
    }
  }

  /** A target is closed at most once, and it is closed exactly when it is no longer open; an attempt
  that ended holds neither lock nor target nor files. */
  lemma EndedAttemptsHoldNothing(states: seq<System>, events: seq<Event>, k: nat, id: AttemptId)
    requires Run(states, events) && k < |states| && id in states[k].attempts
    ensures
      var a := states[k].attempts[id];
      && a.log.closes <= 1 && (a.open <==> a.log.closes == 0)
      && (Terminal(a.state) && !a.running ==> !a.open && !a.locked && a.files == 0)
  {
    FineAt(states, events, k, id);
    hide Run;
  }

  /** After Close, once no work is left, every lock is free and every target of every attempt ever
  started is closed. */
  lemma CloseReleasesEverything(states: seq<System>, events: seq<Event>, k: nat)
    requires Run(states, events) && k < |states| && states[k].closed
    requires forall id :: id in states[k].attempts ==> !states[k].attempts[id].running
    requires forall d :: d in states[k].directories ==> !Holds(states[k].directories[d])
    ensures states[k].locks == map[]
    ensures forall id :: id in states[k].attempts ==>
        !states[k].attempts[id].open && states[k].attempts[id].log.closes == 1
  {
    RunKeepsInv(states, events, k);
    var s := states[k];
    forall id | id in s.attempts
        ensures !s.attempts[id].open && !s.attempts[id].locked && s.attempts[id].log.closes == 1
    {
      FineHere(s, id);
      hide Inv, Run;
    }
    hide Run, Fine;
    assert forall p :: p !in s.locks;
  }
}

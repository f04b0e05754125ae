/** What clients of the import coordinator can rely on: which requests are answered how, that an accepted
request acts on the state its client saw, and which steps change the state of an attempt. */
module ImportRequests {
  import opened Wrappers
  import opened ImportProtocol

  // Requests ----------------------------------------------------------------------------------------------

  /** A request that names the version of the attempt it acts on. */
  predicate Versioned(e: Event) {
    e.StageBegin? || e.ExecuteBegin? || e.Cancel?
  }

  /** The profile's attempt, unless it has done nothing for half an hour. */
  ghost predicate Serves(s: System, profile: ProfileId, id: AttemptId, now: int)
    requires Known(s)
  {
    && profile in s.current && s.current[profile] == id
    && (s.attempts[id].running || now < s.attempts[id].lastActivity + 30 * 60)
  }

  /** What a request needs of an attempt that it found in the version it named. */
  ghost predicate Possible(s: System, e: Event, a: Attempt)
    requires Versioned(e)
  {
    match e
    case StageBegin(profile, _, _, _, lockable) => a.state == SourceRequired && lockable && profile !in s.locks
    case ExecuteBegin(_, _, _, _) => a.state == SourceRequired && a.files > 0 && a.locked
    case Cancel(_, _, _, _) =>
      if a.running then a.state != Installing else a.state == SourceRequired
  }

  /** Equal but for the time of the last activity. */
  ghost predicate OnlyTouched(a: Attempt, b: Attempt) {
    b == a.(lastActivity := b.lastActivity)
  }

  /** No more happened than that one attempt was looked at. */
  ghost predicate NothingButActivity(s: System, t: System, id: AttemptId) {
    && t.closed == s.closed && t.current == s.current && t.locks == s.locks && t.directories == s.directories
    && t.attempts.Keys == s.attempts.Keys
    && (forall x :: x in s.attempts && x != id ==> t.attempts[x] == s.attempts[x])
    && (id in s.attempts ==> OnlyTouched(s.attempts[id], t.attempts[id]))
  }

  /** Holds nothing any more, and is otherwise as it was. */
  ghost predicate Abandoned(a: Attempt, b: Attempt) {
    && b == a.(files := 0, locked := false, open := false, log := b.log)
    && b.log == a.log.(closes := b.log.closes)
  }

  /** An attempt was given up: its profile is free, and it holds neither files nor the lock nor its target. */
  ghost predicate GivenUp(s: System, t: System, profile: ProfileId, id: AttemptId) {
    && t.current == s.current - {profile} && t.attempts.Keys == s.attempts.Keys
    && (forall x :: x in s.attempts && x != id ==> t.attempts[x] == s.attempts[x])
    && id in s.attempts && Abandoned(s.attempts[id], t.attempts[id])
    && (profile in t.locks ==> t.locks[profile] != ByAttempt(id))
  }

  lemma LookupAnswers(s: System, profile: ProfileId, id: AttemptId, now: int)
    requires Inv(s)
    ensures Known(s)
    ensures
      var (t, found) := Lookup(s, profile, id, now);
      && (found <==> Serves(s, profile, id, now))
      && (found ==> id in s.attempts && t == Put(s, id, Touch(s.attempts[id], now)))
      && (!found && !(profile in s.current && s.current[profile] == id) ==> t == s)
      && (!found && profile in s.current && s.current[profile] == id ==> GivenUp(s, t, profile, id))
  {
    KnownHere(s);
    if profile in s.current && s.current[profile] == id {
      CurrentHere(s, profile);
      ForgettingGivesUp(s, profile, id);
    }
    hide Fine, Inv, Known, Cleanup, Forget, GivenUp;
  }

  lemma ForgettingGivesUp(s: System, profile: ProfileId, id: AttemptId)
    requires Inv(s) && id in s.attempts && s.attempts[id].profile == profile
    ensures GivenUp(s, Forget(Cleanup(s, id), profile), profile, id)
  {
    FineHere(s, id);
    CleaningUpFrees(s, id);
    hide Inv, Fine, Cleanup, Dropped, Abandoned;
    DroppedIsAbandoned(s.attempts[id]);
    assert (Forget(Cleanup(s, id), profile)).attempts == s.attempts[id := Dropped(s.attempts[id])];
  }

  lemma CleaningUpFrees(s: System, id: AttemptId)
    requires id in s.attempts
    ensures
      var t := Cleanup(s, id);
      && t.attempts == s.attempts[id := Dropped(s.attempts[id])] && t.current == s.current
      && t.locks == if s.attempts[id].locked then s.locks - {s.attempts[id].profile} else s.locks
  {
    CleanupAttempts(s, id);
    hide Dropped;
  }

  lemma TouchingIsActivity(s: System, id: AttemptId, now: int)
    requires id in s.attempts
    ensures NothingButActivity(s, Put(s, id, Touch(s.attempts[id], now)), id)
  {
  }

  lemma ServedIsKnown(s: System, profile: ProfileId, id: AttemptId, now: int)
    requires Inv(s)
    ensures Known(s)
    ensures Serves(s, profile, id, now) ==>
        id in s.attempts && s.attempts[id].profile == profile && Fine(s.attempts[id], true, s.closed)
  {
    KnownHere(s);
    if profile in s.current {
      CurrentHere(s, profile);
    }
    hide Inv, Fine, Known;
  }

  /** The exact answers to a versioned request: an attempt that is not served, one whose version changed,
  one that cannot do what is asked, and one that does it. */
  lemma RequestAnswers(s: System, e: Event)
    requires Inv(s) && Versioned(e)
    ensures Known(s)
    ensures
      var (t, reply) := Apply(s, e);
      var serves := Serves(s, e.profile, e.id, e.now);
      && (!serves ==> reply == Refused(AttemptInvalid))
      && (serves ==> e.id in s.attempts)
      && (serves && s.attempts[e.id].version != e.expected ==> reply == Refused(AttemptStale))
      && (serves && s.attempts[e.id].version == e.expected ==>
            (reply == Accepted <==> Possible(s, e, s.attempts[e.id])) && reply != Refused(AttemptStale))
  {
    LookupAnswers(s, e.profile, e.id, e.now);
    ServedIsKnown(s, e.profile, e.id, e.now);
    if Serves(s, e.profile, e.id, e.now) {
      ServedIsCancelable(s.attempts[e.id], s.closed);
    }
    hide Inv, Lookup, Known, GivenUp, Cleanup, Serves, Fine, BeginStage, BeginExecute, AcknowledgeCancel;
    hide StartStep, StageEndStep, FinishStep, CloseStep, DirectoryLockStep, DirectoryEndStep;
  }

  lemma ServedIsCancelable(a: Attempt, closed: bool)
    requires Fine(a, true, closed)
    ensures Cancelable(a) <==> if a.running then a.state != Installing else a.state == SourceRequired
  {
  }

  /** A request that is refused leaves every attempt, lock and profile as it was, but for the time of the
  attempt's last activity; only an attempt that was idle too long is given up. */
  lemma RefusalChangesNothing(s: System, e: Event)
    requires Inv(s) && Versioned(e)
    ensures Known(s)
    ensures
      var (t, reply) := Apply(s, e);
      reply != Accepted ==>
        if e.profile in s.current && s.current[e.profile] == e.id && !Serves(s, e.profile, e.id, e.now)
        then GivenUp(s, t, e.profile, e.id) else NothingButActivity(s, t, e.id)
  {
    RefusedOnlyLooks(s, e);
    LookupAnswers(s, e.profile, e.id, e.now);
    hide Inv, Lookup, Known, GivenUp, NothingButActivity, Apply;
    if Serves(s, e.profile, e.id, e.now) {
      TouchingIsActivity(s, e.id, e.now);
    }
    NothingHappened(s, e.id);
  }

  lemma RefusedOnlyLooks(s: System, e: Event)
    requires Inv(s) && Versioned(e)
    ensures Known(s)
    ensures Apply(s, e).1 != Accepted ==> Apply(s, e).0 == Lookup(s, e.profile, e.id, e.now).0
  {
    LookupAnswers(s, e.profile, e.id, e.now);
    hide Inv, Known, Lookup, GivenUp, Serves, Cancelable, Executable, BeginStage, BeginExecute, AcknowledgeCancel;
    hide Cleanup, StartStep, StageEndStep, FinishStep, CloseStep, DirectoryLockStep, DirectoryEndStep;
  }

  lemma NothingHappened(s: System, id: AttemptId)
    ensures NothingButActivity(s, s, id)
  {
  }

  /** What an accepted request does to its attempt and to the lock of its profile. */
  ghost predicate ActsAs(e: Event, a: Attempt, b: Attempt, locks: map<ProfileId, Holder>,
    locks': map<ProfileId, Holder>)
    requires Versioned(e)
  {
    && b.profile == a.profile && b.failure == a.failure
    && match e
       case StageBegin(profile, id, _, _, _) =>
         && b.state == SourceRequired && b.version == a.version && b.work == Staging && b.running
         && !b.cancelRequested && b.log == a.log && locks' == locks[profile := ByAttempt(id)]
       case ExecuteBegin(_, _, _, _) =>
         && b.state == Parsing && b.version == a.version + 1 && b.work == InParse && b.running
         && !b.cancelRequested && b.files == a.files && b.log == a.log && locks' == locks
       case Cancel(profile, _, _, _) =>
         && b.state == Canceled && b.version == a.version + 1 && b.work == a.work && b.running == a.running
         && b.log == a.log.(acknowledged := true, closes := b.log.closes)
         && if a.running then b.cancelRequested && b.files == a.files && locks' == locks
            else b.files == 0 && !b.open && locks' == if a.locked then locks - {profile} else locks
  }

  /** Only one attempt, and the lock of its profile, changed as asked. */
  ghost predicate Acted(s: System, t: System, e: Event)
    requires Versioned(e) && e.id in s.attempts
  {
    && t.attempts.Keys == s.attempts.Keys && t.current == s.current
    && (forall x :: x in s.attempts && x != e.id ==> t.attempts[x] == s.attempts[x])
    && ActsAs(e, s.attempts[e.id], t.attempts[e.id], s.locks, t.locks)
  }

  /** An accepted request changes its attempt as asked, and no other attempt. */
  lemma AcceptanceActs(s: System, e: Event)
    requires Inv(s) && Versioned(e) && Known(s) && Apply(s, e).1 == Accepted
    ensures e.id in s.attempts && Acted(s, Apply(s, e).0, e)
  {
    AcceptedIsPossible(s, e);
    AcceptedActs(s, e);
    hide *;
    match e
    case StageBegin(_, _, _, _, _) => StageBeginActs(s, e);
    case ExecuteBegin(_, _, _, _) => ExecuteBeginActs(s, e);
    case Cancel(_, _, _, _) => CancelActs(s, e);
  }

  lemma AcceptedIsPossible(s: System, e: Event)
    requires Inv(s) && Versioned(e) && Known(s) && Apply(s, e).1 == Accepted
    ensures Serves(s, e.profile, e.id, e.now) && e.id in s.attempts && Possible(s, e, s.attempts[e.id])
    ensures s.attempts[e.id].profile == e.profile && s.attempts[e.id].version == e.expected
  {
    RequestAnswers(s, e);
    ServedIsKnown(s, e.profile, e.id, e.now);
    hide *;
  }

  // The system after a request that found its attempt and was accepted.
  ghost function After(s: System, e: Event): System
    requires Versioned(e) && e.id in s.attempts
  {
    var a := Touch(s.attempts[e.id], e.now);
    var u := Put(s, e.id, a);
    match e
    case StageBegin(profile, id, _, _, _) => Put(u, id, BeginStage(a)).(locks := u.locks[profile := ByAttempt(id)])
    case ExecuteBegin(_, id, _, _) => Put(u, id, BeginExecute(a))
    case Cancel(_, id, _, _) =>
      var v := Put(u, id, AcknowledgeCancel(a));
      if a.running then v else
        assert id in v.attempts;
        Cleanup(v, id)
  }

  lemma AcceptedActs(s: System, e: Event)
    requires Inv(s) && Versioned(e) && Known(s) && Apply(s, e).1 == Accepted && e.id in s.attempts
    ensures Apply(s, e).0 == After(s, e)
  {
    assert e.StageBegin? || e.ExecuteBegin? || e.Cancel?;
    hide *;
    LookupFinds(s, e);
    if e.StageBegin? {
      StagingFound(s, e);
    } else if e.ExecuteBegin? {
      ExecutingFound(s, e);
    } else {
      CancelingFound(s, e);
    }
  }

  lemma StagingFound(s: System, e: Event)
    requires e.StageBegin? && Known(s) && e.id in s.attempts && Apply(s, e).1 == Accepted
    requires Found(s, e)
    ensures Apply(s, e).0 == After(s, e)
  {
    hide Known, Lookup, Put, Touch, BeginStage;
  }

  lemma ExecutingFound(s: System, e: Event)
    requires e.ExecuteBegin? && Known(s) && e.id in s.attempts && Apply(s, e).1 == Accepted
    requires Found(s, e)
    ensures Apply(s, e).0 == After(s, e)
  {
    hide Known, Lookup, Put, Touch, BeginExecute, Executable;
  }

  lemma CancelingFound(s: System, e: Event)
    requires e.Cancel? && Known(s) && e.id in s.attempts && Apply(s, e).1 == Accepted
    requires Found(s, e)
    ensures Apply(s, e).0 == After(s, e)
  {
    hide Known, Lookup, Put, Cleanup, AcknowledgeCancel, Cancelable;
  }

  // A lookup that finds its attempt only touches it.
  ghost predicate Found(s: System, e: Event)
    requires Versioned(e) && Known(s) && e.id in s.attempts
  {
    var a := Touch(s.attempts[e.id], e.now);
    var (t, found) := Lookup(s, e.profile, e.id, e.now);
    found ==> t == Put(s, e.id, a) && e.id in t.attempts && t.attempts[e.id] == a
  }

  lemma LookupFinds(s: System, e: Event)
    requires Versioned(e) && Known(s) && e.id in s.attempts
    ensures Found(s, e)
  {
    hide Inv, Known, Expired, Forget, Cleanup, Touch;
  }

  lemma StageBeginActs(s: System, e: Event)
    requires e.StageBegin? && e.id in s.attempts && Possible(s, e, s.attempts[e.id])
    ensures Acted(s, After(s, e), e)
  {
  }

  lemma ExecuteBeginActs(s: System, e: Event)
    requires e.ExecuteBegin? && e.id in s.attempts
    ensures Acted(s, After(s, e), e)
  {
  }

  lemma CancelActs(s: System, e: Event)
    requires e.Cancel? && e.id in s.attempts && s.attempts[e.id].profile == e.profile
    ensures Acted(s, After(s, e), e)
  {
    var a := Touch(s.attempts[e.id], e.now);
    if !a.running {
      CleaningUp(Put(s, e.id, a), e.id, AcknowledgeCancel(a));
      hide Cleanup;
    }
  }

  lemma CleaningUp(s: System, id: AttemptId, b: Attempt)
    requires id in s.attempts
    ensures
      var t := Cleanup(Put(s, id, b), id);
      && t.attempts == s.attempts[id := Dropped(b)] && t.current == s.current
      && t.locks == if b.locked then s.locks - {b.profile} else s.locks
  {
    CleaningUpFrees(Put(s, id, b), id);
    hide Dropped, Cleanup;
  }

  /** Whatever finds an attempt, and every report of progress, begins its idle time anew. */
  lemma ActivityIsRefreshed(s: System, e: Event)
    requires Inv(s) && Enabled(s, e) && (Versioned(e) || e.Status? || e.Progress?)
    requires Known(s) && (e.Progress? || Serves(s, e.profile, e.id, e.now))
    ensures e.id in Apply(s, e).0.attempts && Apply(s, e).0.attempts[e.id].lastActivity == e.now
  {
    if !e.Progress? {
      LookupAnswers(s, e.profile, e.id, e.now);
      if Versioned(e) && Apply(s, e).1 == Accepted {
        AcceptedRefreshes(s, e);
      } else if Versioned(e) {
        RefusedOnlyLooks(s, e);
      }
    }
    hide Inv, Known, Lookup, Serves, GivenUp, After, StageBeginStep, ExecuteBeginStep, CancelStep;
  }

  lemma AcceptedRefreshes(s: System, e: Event)
    requires Inv(s) && Versioned(e) && Known(s) && Apply(s, e).1 == Accepted
    ensures e.id in Apply(s, e).0.attempts && Apply(s, e).0.attempts[e.id].lastActivity == e.now
  {
    AcceptedIsPossible(s, e);
    AcceptedActs(s, e);
    hide Inv, Known, Apply, Possible, Serves;
    if e.Cancel? {
      var a := Touch(s.attempts[e.id], e.now);
      CleaningUp(Put(s, e.id, a), e.id, AcknowledgeCancel(a));
      hide Cleanup;
    }
  }

  /** A directory import goes on to call the import exactly when nobody imports into its profile, and then
  nobody else can begin to. */
  lemma DirectoryExcludes(s: System, e: Event, request: Event)
    requires Inv(s) && Enabled(s, e) && e.DirectoryLock? && request.StageBegin?
    requires request.profile == s.directories[e.directory].profile
    ensures Known(s)
    ensures
      var t := Apply(s, e).0;
      var p := request.profile;
      && Inv(t) && Known(t)
      && (Enabled(t, DirectoryCall(e.directory)) <==> e.lockable && p !in s.locks)
      && (Enabled(t, DirectoryCall(e.directory)) ==> Apply(t, request).1 != Accepted)
  {
    KnownHere(s);
    StepKeepsInv(s, e);
    var t := Apply(s, e).0;
    KnownHere(t);
    RequestAnswers(t, request);
    hide Inv, Known, Serves, StageBeginStep, Moves, Lookup;
    hide StartStep, StageEndStep, ExecuteBeginStep, FinishStep, CancelStep, CloseStep, DirectoryEndStep;
  }

  // Over whole runs ---------------------------------------------------------------------------------------

  ghost predicate Accepts(s: System, e: Event) {
    Known(s) && Enabled(s, e) && Apply(s, e).1 == Accepted
  }

  /** In every interleaving, an accepted request names the version its attempt has at that moment; so it
  acts on the state that its client saw, whenever the client saw that version. */
  lemma AcceptedActsOnSeenState(states: seq<System>, events: seq<Event>, k: nat, i: nat)
    requires Run(states, events) && k < |events| && i < |states|
    requires Versioned(events[k]) && Accepts(states[k], events[k])
    ensures
      var id := events[k].id;
      && id in states[k].attempts && states[k].attempts[id].version == events[k].expected
      && (id in states[i].attempts && states[i].attempts[id].version == events[k].expected ==>
            && states[i].attempts[id].state == states[k].attempts[id].state
            && states[i].attempts[id].failure == states[k].attempts[id].failure)
  {
    MoveAt(states, events, k);
    RequestAnswers(states[k], events[k]);
    var id := events[k].id;
    hide Run, Inv, Moves, Apply;
    if id in states[i].attempts && states[i].attempts[id].version == events[k].expected {
      VersionNamesState(states, events, i, k, id);
    }
  }

  /** A request with another version than its attempt has changes nothing that a client can see. */
  lemma StaleRequestChangesNothing(states: seq<System>, events: seq<Event>, k: nat)
    requires Run(states, events) && k < |events| && Versioned(events[k])
    requires events[k].id in states[k].attempts
    requires states[k].attempts[events[k].id].version != events[k].expected
    ensures
      var e := events[k];
      var a := states[k].attempts[e.id];
      && !Accepts(states[k], e)
      && if IsCurrent(states[k], e.id) && a.profile == e.profile && !a.running && e.now - a.lastActivity >= 30 * 60
         then GivenUp(states[k], states[k + 1], e.profile, e.id)
         else NothingButActivity(states[k], states[k + 1], e.id)
  {
    MoveAt(states, events, k);
    var s, e := states[k], events[k];
    RequestAnswers(s, e);
    RefusalChangesNothing(s, e);
    hide Run, Inv, Apply, GivenUp, NothingButActivity;
  }

  // The state diagram of one attempt ----------------------------------------------------------------------

  ghost predicate SameNews(a: Attempt, b: Attempt) {
    b.state == a.state && b.version == a.version && b.failure == a.failure
  }

  /** How the end of the work shows in the state. */
  ghost predicate Ends(a: Attempt, b: Attempt, outcome: Outcome) {
    match outcome
    case Success => a.state == Installing && b.state == Complete && b.failure == a.failure
    case Error(code) =>
      if a.state == Canceled || code == ImportCanceled then b.state == Canceled && b.failure == a.failure
      else b.state == Failed && b.failure == Some(code)
  }

  /** The edges of the state diagram: the only steps after which a client reads something new. */
  ghost predicate Edge(e: Event, id: AttemptId, a: Attempt, b: Attempt) {
    && b.version == a.version + 1
    && match e
       case StageEnd(x, staged) =>
         && x == id && a.work == Staging && b.failure == a.failure
         && if a.cancelRequested || staged == StageError(ImportCanceled) then b.state == Canceled && b.files == 0
            else staged == Staged(b.files) && a.state == SourceRequired && b.state == SourceRequired
       case ExecuteBegin(profile, x, expected, _) =>
         && x == id && profile == a.profile && expected == a.version && b.failure == a.failure
         && a.state == SourceRequired && a.files > 0 && b.state == Parsing
       case ParseEnd(x, parsed) =>
         && x == id && parsed.Success? && !a.cancelRequested && b.failure == a.failure
         && a.state == Parsing && b.state == Installing
       case Finish(x) =>
         && x == id && a.work.Stopping? && !b.running
         && Ends(a, b, a.work.outcome)
       case Cancel(profile, x, expected, _) =>
         && x == id && profile == a.profile && expected == a.version && b.failure == a.failure
         && (if a.running then a.state != Installing else a.state == SourceRequired) && b.state == Canceled
       case _ => false
  }

  /** What the work on an attempt does in one step: it stages, parses, is ready to import, imports, and stops with
  the outcome of what it did last. */
  ghost predicate Proceeds(e: Event, id: AttemptId, a: Attempt, b: Attempt) {
    if Works(e) && e.id == id then
      match e
      case StageEnd(_, _) => a.work == Staging && b.work == Idle
      case ParseEnd(_, parsed) =>
        && a.work == InParse
        && b.work == (if parsed.Error? then Stopping(parsed)
                      else if a.state == Canceled then Stopping(Error(ImportCanceled)) else Ready)
      case ImportCall(_, available) =>
        a.work == Ready && b.work == if available then InImport else Stopping(Error(ProfileInvalid))
      case ImportEnd(_, installed) => a.work == InImport && b.work == Stopping(installed)
      case Panic(_) => (a.work == InParse || a.work == InImport) && b.work == Stopping(Error(Unmapped))
      case Finish(_) => a.work.Stopping? && b.work == Idle
      case _ => b.work == a.work
    else
      || b.work == a.work
      || (e.StageBegin? && e.id == id && b.work == Staging)
      || (e.ExecuteBegin? && e.id == id && a.work == Idle && b.work == InParse)
  }

  /** The import is called in these steps only. */
  ghost predicate CallsImport(e: Event, id: AttemptId, a: Attempt, b: Attempt) {
    b.log.calls == a.log.calls + if e == ImportCall(id, true) then 1 else 0
  }

  /** What one step may do to one attempt. */
  ghost predicate Allowed(e: Event, id: AttemptId, a: Attempt, b: Attempt) {
    && b.profile == a.profile && (SameNews(a, b) || Edge(e, id, a, b))
    && Proceeds(e, id, a, b) && CallsImport(e, id, a, b)
    && (b.log.acknowledged && !a.log.acknowledged ==> e.Cancel? && e.id == id && b.version == a.version + 1)
    && (e.Cancel? && e.id == id && b.version == a.version + 1 ==> b.log.acknowledged)
  }

  // The attempt after a step that concerns it.
  ghost predicate Became(s: System, e: Event, id: AttemptId, b: Attempt)
    requires id in s.attempts && Known(s) && Enabled(s, e)
  {
    var a := s.attempts[id];
    match e
    case StageEnd(_, staged) =>
      if s.closed then b == Dropped(EndStage(a))
      else if a.cancelRequested || staged == StageError(ImportCanceled) then b == Dropped(CancelStage(a))
      else if staged.StageError? then b == EndStage(a).(locked := false) else b == AcceptFiles(a, staged.count)
    case ParseEnd(_, parsed) => b == EndParse(a, parsed)
    case ImportCall(_, available) => b == BeginImport(a, available)
    case ImportEnd(_, installed) => b == EndImport(a, installed)
    case Panic(_) => b == StopWith(a, Error(Unmapped))
    case Finish(_) => id == e.id && b == Dropped(Conclude(a, a.work.outcome))
    case Progress(_, now) => b == Touch(a, now)
    case _ => false
  }

  predicate Works(e: Event) {
    e.StageEnd? || e.Progress? || e.ParseEnd? || e.ImportCall? || e.ImportEnd? || e.Panic? || e.Finish?
  }

  lemma WorkBecomes(s: System, e: Event, id: AttemptId)
    requires Known(s) && Enabled(s, e) && Works(e) && id in s.attempts
    ensures id in Apply(s, e).0.attempts
    ensures var b := Apply(s, e).0.attempts[id];
      if e.id == id then Became(s, e, id, b) else b == s.attempts[id]
  {
    hide Known, Touch, EndStage, CancelStage, AcceptFiles, StopWith, EndParse, BeginImport, EndImport, Conclude;
    hide Dropped, CloseTarget, Cleanup, Release;
    hide StartStep, StageBeginStep, ExecuteBeginStep, CancelStep, CloseStep, Lookup, DirectoryLockStep,
         DirectoryEndStep;
    if e.StageEnd? {
      var a := s.attempts[e.id];
      CleanupAttempts(Put(s, e.id, EndStage(a)), e.id);
      CleanupAttempts(Put(s, e.id, CancelStage(a)), e.id);
    } else if e.Finish? {
      CleanupAttempts(Put(s, e.id, Conclude(s.attempts[e.id], s.attempts[e.id].work.outcome)), e.id);
    }
  }

  lemma WorkIsAllowed(s: System, e: Event, id: AttemptId, b: Attempt)
    requires Known(s) && Enabled(s, e) && Works(e) && id in s.attempts && e.id == id && Became(s, e, id, b)
    requires Fine(s.attempts[id], true, s.closed)
    ensures Allowed(e, id, s.attempts[id], b)
  {
    hide Known;
  }

  lemma RequestIsAllowed(s: System, e: Event, id: AttemptId)
    requires Inv(s) && Known(s) && Versioned(e) && id in s.attempts
    ensures id in Apply(s, e).0.attempts && Allowed(e, id, s.attempts[id], Apply(s, e).0.attempts[id])
  {
    if Apply(s, e).1 == Accepted {
      AcceptedIsAllowed(s, e, id);
    } else {
      RefusalChangesNothing(s, e);
      hide Inv, Apply, Known, Serves, Allowed, OnlyTouched, Abandoned;
      QuietIsAllowed(e, id, s.attempts[id], Apply(s, e).0.attempts[id]);
    }
  }

  lemma QuietIsAllowed(e: Event, id: AttemptId, a: Attempt, b: Attempt)
    requires !Works(e) || e.id != id
    ensures OnlyTouched(a, b) || Abandoned(a, b) ==> Allowed(e, id, a, b)
    ensures b == a ==> OnlyTouched(a, b)
  {
  }

  lemma AcceptedIsAllowed(s: System, e: Event, id: AttemptId)
    requires Inv(s) && Known(s) && Versioned(e) && id in s.attempts && Apply(s, e).1 == Accepted
    ensures id in Apply(s, e).0.attempts && Allowed(e, id, s.attempts[id], Apply(s, e).0.attempts[id])
  {
    AcceptanceActs(s, e);
    AcceptedIsPossible(s, e);
    ServedIsKnown(s, e.profile, e.id, e.now);
    hide Inv, Apply, Known, Allowed, OnlyTouched, Abandoned, Fine, ActsAs, Possible, Serves;
    var a, b := s.attempts[id], Apply(s, e).0.attempts[id];
    if id == e.id {
      ActsAreAllowed(s, e, a, b, Apply(s, e).0.locks);
    } else {
      QuietIsAllowed(e, id, a, b);
    }
  }

  lemma ActsAreAllowed(s: System, e: Event, a: Attempt, b: Attempt, locks: map<ProfileId, Holder>)
    requires Versioned(e) && ActsAs(e, a, b, s.locks, locks) && Possible(s, e, a) && a.version == e.expected
    requires Fine(a, true, s.closed) && a.profile == e.profile
    ensures Allowed(e, e.id, a, b)
  {
  }

  lemma StartIsAllowed(s: System, e: Event, id: AttemptId)
    requires Inv(s) && Known(s) && Enabled(s, e) && e.Start? && id in s.attempts
    ensures id in Apply(s, e).0.attempts && Allowed(e, id, s.attempts[id], Apply(s, e).0.attempts[id])
  {
    var a := s.attempts[id];
    var t := Reaped(s, e.profile, e.now);
    if e.profile in s.current {
      CleanupAttempts(s, s.current[e.profile]);
    }
    hide Inv, Known, NewAttempt, Allowed, Cleanup, Terminal, Dropped, Expired;
    hide StageBeginStep, StageEndStep, ExecuteBeginStep, FinishStep, CancelStep, CloseStep, DirectoryLockStep,
         DirectoryEndStep, Lookup;
    assert id in t.attempts && (t.attempts[id] == a || t.attempts[id] == Dropped(a));
    hide Reaped;
    QuietlyDropped(e, id, a);
  }

  lemma QuietlyDropped(e: Event, id: AttemptId, a: Attempt)
    requires !Works(e) || e.id != id
    ensures Allowed(e, id, a, Dropped(a)) && Allowed(e, id, a, a)
  {
    DroppedIsAbandoned(a);
    QuietIsAllowed(e, id, a, a);
    hide Allowed, Abandoned, Dropped;
    QuietIsAllowed(e, id, a, Dropped(a));
  }

  lemma DroppedIsAbandoned(a: Attempt)
    ensures Abandoned(a, Dropped(a))
  {
  }

  // Everything that is no request and no work: statuses, directory imports, and Close.
  lemma RestIsAllowed(s: System, e: Event, id: AttemptId)
    requires Inv(s) && Known(s) && Enabled(s, e) && !e.Start? && !Versioned(e) && !Works(e) && id in s.attempts
    ensures id in Apply(s, e).0.attempts && Allowed(e, id, s.attempts[id], Apply(s, e).0.attempts[id])
  {
    var a := s.attempts[id];
    QuietlyDropped(e, id, a);
    if e.Status? {
      LookupAnswers(s, e.profile, e.id, e.now);
      QuietIsAllowed(e, id, a, Lookup(s, e.profile, e.id, e.now).0.attempts[id]);
      hide Inv, Known, Allowed, Lookup, Touch, Abandoned, OnlyTouched, Serves;
    } else {
      hide Inv, Known, Allowed, CloseTarget, StartStep, StageBeginStep, StageEndStep, ExecuteBeginStep, FinishStep,
           CancelStep, Lookup;
    }
  }

  /** Every step moves every attempt along the state diagram or leaves what clients read of it alone. */
  lemma StepFollowsDiagram(s: System, e: Event, s': System, id: AttemptId)
    requires Inv(s) && Moves(s, e, s') && id in s.attempts
    ensures id in s'.attempts && Allowed(e, id, s.attempts[id], s'.attempts[id])
  {
    hide Inv, Known, Apply, Allowed, Fine, Became;
    if Versioned(e) {
      RequestIsAllowed(s, e, id);
    } else if e.Start? {
      StartIsAllowed(s, e, id);
    } else if Works(e) {
      WorkBecomes(s, e, id);
      if e.id == id {
        RunningHere(s, id);
        WorkIsAllowed(s, e, id, s'.attempts[id]);
      } else {
        QuietlyDropped(e, id, s.attempts[id]);
      }
    } else {
      RestIsAllowed(s, e, id);
    }
  }

  /** The work on an attempt proceeds in this order and no other, in every step. */
  lemma WorkProceeds(s: System, e: Event, s': System, id: AttemptId)
    requires Inv(s) && Moves(s, e, s') && id in s.attempts
    ensures id in s'.attempts
    ensures Proceeds(e, id, s.attempts[id], s'.attempts[id]) && CallsImport(e, id, s.attempts[id], s'.attempts[id])
  {
    StepFollowsDiagram(s, e, s', id);
    hide Inv, Moves, Proceeds, CallsImport;
  }

  /** The steps after which clients read something new of an attempt. */
  ghost predicate Takes(s: System, e: Event, id: AttemptId)
    requires id in s.attempts
  {
    match e
    case StageEnd(x, staged) =>
      x == id && !s.closed && (staged.Staged? || s.attempts[id].cancelRequested || staged.code == ImportCanceled)
    case ParseEnd(x, parsed) => x == id && parsed.Success? && !s.attempts[id].cancelRequested
    case Finish(x) => x == id
    case ExecuteBegin(_, x, _, _) => x == id && Accepts(s, e)
    case Cancel(_, x, _, _) => x == id && Accepts(s, e)
    case _ => false
  }

  lemma WorkTakes(s: System, e: Event, id: AttemptId, b: Attempt)
    requires Known(s) && Enabled(s, e) && Works(e) && id in s.attempts && e.id == id && Became(s, e, id, b)
    ensures Takes(s, e, id) <==> b.version != s.attempts[id].version
  {
    hide Known, Apply;
  }

  lemma RequestTakes(s: System, e: Event, s': System, id: AttemptId)
    requires Inv(s) && Moves(s, e, s') && Versioned(e) && id in s.attempts
    ensures id in s'.attempts && (Takes(s, e, id) <==> s'.attempts[id].version != s.attempts[id].version)
  {
    if Apply(s, e).1 == Accepted {
      AcceptedTakes(s, e, s', id);
    } else {
      RefusalChangesNothing(s, e);
      hide Inv, Known, Apply, Serves, OnlyTouched, Abandoned;
      QuietKeepsVersion(s.attempts[id], s'.attempts[id]);
    }
  }

  lemma QuietKeepsVersion(a: Attempt, b: Attempt)
    ensures OnlyTouched(a, b) || Abandoned(a, b) || b == a ==> b.version == a.version
  {
  }

  lemma AcceptedTakes(s: System, e: Event, s': System, id: AttemptId)
    requires Inv(s) && Moves(s, e, s') && Versioned(e) && id in s.attempts && Accepts(s, e)
    ensures id in s'.attempts && (Takes(s, e, id) <==> s'.attempts[id].version != s.attempts[id].version)
  {
    AcceptanceActs(s, e);
    hide Inv, Known, Apply, Fine, Accepts;
  }

  /** Every step moves an attempt along an edge of the diagram, with the next version, exactly when it takes
  one; every other step leaves the attempt's version, state and failure alone. */
  lemma StateDiagram(s: System, e: Event, s': System, id: AttemptId)
    requires Inv(s) && Moves(s, e, s') && id in s.attempts
    ensures id in s'.attempts
    ensures if Takes(s, e, id) then Edge(e, id, s.attempts[id], s'.attempts[id])
            else SameNews(s.attempts[id], s'.attempts[id])
  {
    StepFollowsDiagram(s, e, s', id);
    if Versioned(e) {
      RequestTakes(s, e, s', id);
    } else if Works(e) {
      WorkBecomes(s, e, id);
      if e.id == id {
        WorkTakes(s, e, id, s'.attempts[id]);
      }
    }
    hide Inv, Known, Apply, Became;
  }

  /** A living attempt of the profile keeps it from being started again. */
  ghost predicate Blocked(s: System, profile: ProfileId, now: int)
    requires Inv(s) && Known(s)
  {
    profile in s.current && Serves(s, profile, s.current[profile], now)
    && (s.attempts[s.current[profile]].running || s.attempts[s.current[profile]].state == SourceRequired)
  }

  /** The attempt is in its first state, with a target to import into and nothing else. */
  ghost predicate Fresh(s: System, e: Event)
    requires e.Start?
  {
    && e.profile in s.current && s.current[e.profile] == e.id && e.id in s.attempts
    && var a := s.attempts[e.id];
    && a.profile == e.profile && a.state == SourceRequired && a.version == 1 && a.lastActivity == e.now
    && !a.running && !a.cancelRequested && a.work == Idle && !a.locked && a.open && a.files == 0 && a.failure == None
    && a.log == Log(false, 0, false, 0)
  }

  /** The exact answers to a start: a closed coordinator, a profile whose attempt is still alive, no identifier
  to give, and a fresh attempt. */
  lemma StartAnswers(s: System, e: Event)
    requires Inv(s) && Enabled(s, e) && e.Start?
    ensures Known(s)
    ensures
      var (t, reply) := Apply(s, e);
      var blocked := Blocked(s, e.profile, e.now);
      && (s.closed ==> reply == Refused(AttemptInvalid) && t == s)
      && (!s.closed && blocked ==> reply == Refused(ImportBusy) && t == s)
      && (!s.closed && !blocked && !e.named ==> reply == Refused(ImportInvalid) && e.id !in t.attempts)
      && (!s.closed && !blocked && e.named ==> reply == Accepted && Fresh(t, e))
  {
    KnownHere(s);
    ReapedUnlessBlocked(s, e.profile, e.now);
    StartedIsFresh(Reaped(s, e.profile, e.now), e);
    hide Inv, Known, Cleanup, Dropped, Reaped, Blocked, Fine, Terminal, LocksFit, IsCurrent, Fresh, NewAttempt, Put;
    hide StageBeginStep, StageEndStep, ExecuteBeginStep, FinishStep, CancelStep, CloseStep, DirectoryLockStep,
         DirectoryEndStep, Lookup;
  }

  lemma StartedIsFresh(s: System, e: Event)
    requires e.Start?
    ensures Fresh(Put(s, e.id, NewAttempt(e.profile, e.now)).(current := s.current[e.profile := e.id]), e)
  {
  }

  lemma ReapedUnlessBlocked(s: System, profile: ProfileId, now: int)
    requires Inv(s) && Known(s)
    ensures var t := Reaped(s, profile, now);
      && t.attempts.Keys == s.attempts.Keys
      && (Blocked(s, profile, now) ==> t == s)
      && (profile in t.current ==> profile in s.current)
      && (Blocked(s, profile, now) <==>
            && profile in t.current
            && (!Terminal(s.attempts[s.current[profile]].state) || s.attempts[s.current[profile]].running))
  {
    ReapedIfIdle(s, profile, now);
    if profile in s.current {
      CurrentHere(s, profile);
      hide Inv, Known, Fine, Reaped;
      IdleHasAState(s.attempts[s.current[profile]], s.closed);
    }
  }

  lemma ReapedIfIdle(s: System, profile: ProfileId, now: int)
    requires Known(s)
    ensures
      var t := Reaped(s, profile, now);
      && t.attempts.Keys == s.attempts.Keys
      && if profile in s.current && Expired(s.attempts[s.current[profile]], now) then profile !in t.current else t == s
  {
    if profile in s.current {
      CleanupAttempts(s, s.current[profile]);
    }
    hide Cleanup, Dropped, Expired;
  }

  lemma IdleHasAState(a: Attempt, closed: bool)
    requires Fine(a, true, closed)
    ensures a.running || Terminal(a.state) || a.state == SourceRequired
  {
  }

  /** What a client is told when its staging ends: the files are accepted, or it was canceled or failed. */
  lemma StagingAnswers(s: System, e: Event)
    requires Inv(s) && Known(s) && Enabled(s, e) && e.StageEnd?
    ensures
      var (t, reply) := Apply(s, e);
      && e.id in t.attempts
      && if s.closed then reply == Refused(AttemptInvalid)
         else if s.attempts[e.id].state == Canceled then reply == Refused(ImportCanceled)
         else if e.staged.StageError? then reply == Refused(e.staged.code)
         else reply == Accepted && t.attempts[e.id].files == e.staged.count
              && t.attempts[e.id].state == SourceRequired
  {
    FineHere(s, e.id);
    WorkBecomes(s, e, e.id);
    hide Inv, Known, Cleanup, Release, LogFits, Forget;
  }

  /** What a client is told when its execution ends: the attempt is complete, or the error that ended it. */
  lemma ExecutionAnswers(s: System, e: Event)
    requires Inv(s) && Known(s) && Enabled(s, e) && e.Finish?
    ensures
      var (t, reply) := Apply(s, e);
      && e.id in t.attempts
      && var b := t.attempts[e.id];
      && (reply == Accepted <==> b.state == Complete)
      && (reply == Refused(ImportCanceled) ==> b.state == Canceled)
      && (b.state == Failed ==> b.failure.Some? && reply == Refused(b.failure.value))
      && (b.state == Complete || b.state == Failed || b.state == Canceled)
  {
    FineHere(s, e.id);
    WorkBecomes(s, e, e.id);
    hide Inv, Known, Cleanup, Release, LogFits, Forget, CloseTarget;
    hide StartStep, StageBeginStep, StageEndStep, ExecuteBeginStep, CancelStep, CloseStep, Lookup, DirectoryLockStep,
         DirectoryEndStep;
  }

  /** A status is answered exactly for the profile's own attempt while it is not idle too long. */
  lemma StatusAnswers(s: System, e: Event)
    requires Inv(s) && e.Status?
    ensures Known(s)
    ensures Apply(s, e).1 == if Serves(s, e.profile, e.id, e.now) then Accepted else Refused(AttemptInvalid)
  {
    LookupAnswers(s, e.profile, e.id, e.now);
    hide Inv, Known, Lookup, Serves, GivenUp;
  }

  // Why an attempt ended as it did ------------------------------------------------------------------------

  /** The step brought an error of the work on an attempt. */
  predicate Brings(e: Event, id: AttemptId, code: Code) {
    || e == ParseEnd(id, Error(code)) || e == ImportEnd(id, Error(code))
    || (e == StageEnd(id, StageError(code)) && code == ImportCanceled)
    || (e == ImportCall(id, false) && code == ProfileInvalid) || (e == Panic(id) && code == Unmapped)
  }

  ghost predicate Reported(events: seq<Event>, k: nat, id: AttemptId, code: Code)
    requires k <= |events|
  {
    exists j :: 0 <= j < k && Brings(events[j], id, code)
  }

  ghost predicate Cancels(s: System, e: Event, id: AttemptId) {
    e.Cancel? && e.id == id && Accepts(s, e)
  }

  ghost predicate CancelAccepted(states: seq<System>, events: seq<Event>, k: nat, id: AttemptId)
    requires k <= |events| <= |states|
  {
    exists j :: 0 <= j < k && Cancels(states[j], events[j], id)
  }

  ghost predicate Explained(a: Attempt, canceled: bool, reported: iset<Code>) {
    && (a.failure.Some? ==> a.state == Failed && a.failure.value in reported)
    && (a.state == Failed ==> a.failure.Some?)
    && (a.work.Stopping? && a.work.outcome.Error? ==>
          a.work.outcome.code in reported || (a.work.outcome.code == ImportCanceled && canceled))
    && (a.state == Canceled ==> canceled || ImportCanceled in reported)
    && (a.log.acknowledged <==> canceled)
  }

  ghost function Codes(events: seq<Event>, k: nat, id: AttemptId): iset<Code>
    requires k <= |events|
  {
    iset code: Code | Reported(events, k, id, code)
  }

  lemma StepExplains(e: Event, id: AttemptId, a: Attempt, b: Attempt, current: bool, closed: bool, canceled: bool,
    reported: iset<Code>, reported': iset<Code>)
    requires Allowed(e, id, a, b) && Fine(a, current, closed) && Explained(a, canceled, reported)
    requires forall code :: code in reported' <==> code in reported || Brings(e, id, code)
    requires a.log.acknowledged ==> b.log.acknowledged
    ensures Explained(b, b.log.acknowledged, reported')
  {
  }

  ghost predicate ExplainedAt(states: seq<System>, events: seq<Event>, k: nat, id: AttemptId)
    requires k <= |events| <= |states| && k < |states| && id in states[k].attempts
  {
    Explained(states[k].attempts[id], CancelAccepted(states, events, k, id), Codes(events, k, id))
  }

  lemma CancelCounts(states: seq<System>, events: seq<Event>, k: nat, id: AttemptId)
    requires k < |events| <= |states|
    ensures CancelAccepted(states, events, k + 1, id) <==>
            CancelAccepted(states, events, k, id) || Cancels(states[k], events[k], id)
  {
    hide Cancels;
  }

  lemma CodesGrow(events: seq<Event>, k: nat, id: AttemptId)
    requires k < |events|
    ensures forall code ::
      code in Codes(events, k + 1, id) <==> code in Codes(events, k, id) || Brings(events[k], id, code)
  {
    hide Brings;
  }

  lemma NewcomerIsNew(s: System, e: Event, s': System, id: AttemptId)
    requires Inv(s) && Moves(s, e, s') && id in s'.attempts && id !in s.attempts
    ensures e.Start? && s'.attempts[id] == NewAttempt(e.profile, e.now)
  {
    if e.Start? {
      ReapingKeepsInv(s, e.profile, e.now);
      hide Inv, Known, Reaped;
    } else {
      hide Inv, Moves;
      OnlyStartAdds(s, e, s');
    }
  }

  // An attempt that does not exist yet has no history.
  lemma NothingBefore(states: seq<System>, events: seq<Event>, k: nat, id: AttemptId)
    requires Run(states, events) && k < |states| && id !in states[k].attempts
    ensures !CancelAccepted(states, events, k, id) && forall code :: !Reported(events, k, id, code)
  {
    forall j | 0 <= j < k ensures !Cancels(states[j], events[j], id) && forall code :: !Brings(events[j], id, code) {
      MoveAt(states, events, j);
      RunGrows(states, events, j, k);
      if Cancels(states[j], events[j], id) {
        RequestAnswers(states[j], events[j]);
      }
      hide Run, Inv, Known, Older;
    }
    hide Cancels, Brings;
  }

  lemma CancelShows(s: System, e: Event, s': System, id: AttemptId)
    requires Inv(s) && Moves(s, e, s') && id in s.attempts && id in s'.attempts && !s.attempts[id].log.acknowledged
    ensures s'.attempts[id].log.acknowledged <==> Cancels(s, e, id)
  {
    StepFollowsDiagram(s, e, s', id);
    if Cancels(s, e, id) {
      AcceptedCancelShows(s, e, s', id);
    } else if e.Cancel? && e.id == id {
      RefusedCancelIsSilent(s, e, s', id);
    }
    hide Inv, Moves, Known, Apply, Proceeds, CallsImport, Edge, SameNews, Cancels;
  }

  lemma AcceptedCancelShows(s: System, e: Event, s': System, id: AttemptId)
    requires Inv(s) && Moves(s, e, s') && id in s.attempts && id in s'.attempts && Cancels(s, e, id)
    ensures s'.attempts[id].log.acknowledged
  {
    AcceptanceActs(s, e);
    hide Inv, Known, Apply, Fine;
  }

  lemma RefusedCancelIsSilent(s: System, e: Event, s': System, id: AttemptId)
    requires Inv(s) && Moves(s, e, s') && id in s.attempts && id in s'.attempts && e.Cancel? && e.id == id
    requires !Cancels(s, e, id)
    ensures s'.attempts[id].log.acknowledged == s.attempts[id].log.acknowledged
  {
    RefusalChangesNothing(s, e);
    hide Inv, Known, Apply, Serves, Fine;
  }

  lemma Acknowledging(s: System, t: System, id: AttemptId, canceled: bool, reported: iset<Code>)
    requires AllOlder(s, t) && id in s.attempts && Explained(s.attempts[id], canceled, reported)
    ensures s.attempts[id].log.acknowledged == canceled
    ensures id in t.attempts && (canceled ==> t.attempts[id].log.acknowledged)
  {
  }

  lemma OneMoreExplained(states: seq<System>, events: seq<Event>, k: nat, id: AttemptId)
    requires |states| == |events| + 1 && k < |events| && id in states[k].attempts && ExplainedAt(states, events, k, id)
    requires Inv(states[k]) && Moves(states[k], events[k], states[k + 1])
    ensures id in states[k + 1].attempts && ExplainedAt(states, events, k + 1, id)
  {
    var s, e, s' := states[k], events[k], states[k + 1];
    var canceled, reported := CancelAccepted(states, events, k, id), Codes(events, k, id);
    CancelCounts(states, events, k, id);
    CodesGrow(events, k, id);
    StepFollowsDiagram(s, e, s', id);
    StepIsOlder(s, e, s');
    FineHere(s, id);
    hide Inv, Known, Moves, Apply, Explained, Cancels, Brings, CancelAccepted, Codes, Allowed, AllOlder, Fine,
         IsCurrent;
    Acknowledging(s, s', id, canceled, reported);
    if !canceled {
      CancelShows(s, e, s', id);
    }
    StepExplains(e, id, s.attempts[id], s'.attempts[id], IsCurrent(s, id), s.closed, canceled, reported,
                 Codes(events, k + 1, id));
  }

  lemma NewIsExplained(states: seq<System>, events: seq<Event>, k: nat, id: AttemptId, profile: ProfileId, now: int)
    requires k <= |events| < |states| && id in states[k].attempts && states[k].attempts[id] == NewAttempt(profile, now)
    requires !CancelAccepted(states, events, k, id)
    ensures ExplainedAt(states, events, k, id)
  {
    hide CancelAccepted, Codes;
  }

  lemma {:induction false} RunExplains(states: seq<System>, events: seq<Event>, k: nat, id: AttemptId)
    requires Run(states, events) && k < |states| && id in states[k].attempts
    ensures |states| == |events| + 1 && ExplainedAt(states, events, k, id)
  {
    hide *;
    RunStartsEmpty(states, events);
    RunLength(states, events);
    if k > 0 {
      RunStep(states, events, k - 1);
      var s, e := states[k - 1], events[k - 1];
      if id in s.attempts {
        RunExplains(states, events, k - 1, id);
        OneMoreExplained(states, events, k - 1, id);
      } else {
        NothingBefore(states, events, k - 1, id);
        CancelCounts(states, events, k - 1, id);
        NewcomerIsNew(s, e, states[k], id);
        StartsAreNoCancels(s, e, id);
        NewIsExplained(states, events, k, id, e.profile, e.now);
      }
    }
  }

  lemma StartsAreNoCancels(s: System, e: Event, id: AttemptId)
    requires e.Start?
    ensures !Cancels(s, e, id)
  {
  }

  /** An attempt fails exactly with an error that its work brought; a canceled attempt had a cancel accepted
  or its own work canceled. */
  lemma EndsHaveCauses(states: seq<System>, events: seq<Event>, k: nat, id: AttemptId)
    requires Run(states, events) && k < |states| && id in states[k].attempts
    ensures |states| == |events| + 1
    ensures
      var a := states[k].attempts[id];
      && (a.state == Failed <==> a.failure.Some?)
      && (a.state == Failed ==> Reported(events, k, id, a.failure.value))
      && (a.state == Canceled ==>
            CancelAccepted(states, events, k, id) || Reported(events, k, id, ImportCanceled))
      && (CancelAccepted(states, events, k, id) ==> a.state == Canceled)
  {
    RunExplains(states, events, k, id);
    FineAt(states, events, k, id);
    hide Run, CancelAccepted, Reported;
  }

  // Calls of the import -----------------------------------------------------------------------------------

  /** The import of the attempt was called among the first `k` steps. */
  ghost predicate ImportCalled(events: seq<Event>, k: nat, id: AttemptId)
    requires k <= |events|
  {
    exists j :: 0 <= j < k && events[j] == ImportCall(id, true)
  }

  lemma NotCalledBefore(states: seq<System>, events: seq<Event>, k: nat, id: AttemptId)
    requires Run(states, events) && |states| == |events| + 1 && k < |states| && id !in states[k].attempts
    ensures !ImportCalled(events, k, id)
  {
    forall j | 0 <= j < k ensures events[j] != ImportCall(id, true) {
      MoveAt(states, events, j);
      RunGrows(states, events, j, k);
      hide Run, Inv, Known, Older, Apply;
    }
  }

  lemma CallFollows(e: Event, id: AttemptId, a: Attempt, b: Attempt, events: seq<Event>, k: nat)
    requires k < |events| && events[k] == e && CallsImport(e, id, a, b) && b.log.calls <= 1
    requires a.log.calls == 1 <==> ImportCalled(events, k, id)
    ensures b.log.calls == 1 <==> ImportCalled(events, k + 1, id)
  {
  }

  lemma NewNeverCalled(e: Event, id: AttemptId, a: Attempt, events: seq<Event>, k: nat)
    requires k < |events| && events[k] == e && e.Start? && a == NewAttempt(e.profile, e.now)
    requires !ImportCalled(events, k, id)
    ensures a.log.calls == 0 && !ImportCalled(events, k + 1, id)
  {
  }

  lemma CalledOnce(states: seq<System>, events: seq<Event>, k: nat, id: AttemptId)
    requires Run(states, events) && k < |states| && id in states[k].attempts
    ensures states[k].attempts[id].log.calls <= 1
  {
    FineAt(states, events, k, id);
    hide Run, Inv;
  }

  /** In every run the import of an attempt is called at most once, and exactly in a step that found an import in
  its target. */
  lemma {:induction false} ImportIsCalled(states: seq<System>, events: seq<Event>, k: nat, id: AttemptId)
    requires Run(states, events) && k < |states| && id in states[k].attempts
    ensures |states| == |events| + 1
    ensures states[k].attempts[id].log.calls <= 1
    ensures states[k].attempts[id].log.calls == 1 <==> ImportCalled(events, k, id)
  {
    RunStartsEmpty(states, events);
    RunLength(states, events);
    CalledOnce(states, events, k, id);
    hide *;
    if k > 0 {
      RunStep(states, events, k - 1);
      var s, e := states[k - 1], events[k - 1];
      if id in s.attempts {
        ImportIsCalled(states, events, k - 1, id);
        WorkProceeds(s, e, states[k], id);
        CallFollows(e, id, s.attempts[id], states[k].attempts[id], events, k - 1);
      } else {
        NotCalledBefore(states, events, k - 1, id);
        NewcomerIsNew(s, e, states[k], id);
        NewNeverCalled(e, id, states[k].attempts[id], events, k - 1);
      }
    }
  }
}

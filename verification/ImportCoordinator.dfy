/** The coordinator's critical sections as methods that update its fields in place.

Each method is what the program does while it holds the mutex; its contract says that the state it
leaves is the protocol's step, so the run theorems of the protocol hold of every interleaving of these
methods. */
module ImportCoordinator {
  import opened Wrappers
  import opened ImportProtocol

  class Coordinator {
    var closed: bool
    var current: map<ProfileId, AttemptId>
    var attempts: map<AttemptId, Attempt>
    var locks: map<ProfileId, Holder>
    var directories: map<DirectoryId, Directory>

    ghost function View(): System
      reads this
    {
      System(closed, current, attempts, locks, directories)
    }

    constructor ()
      ensures Initial(View())
    {
      closed, current, attempts, locks, directories := false, map[], map[], map[], map[];
    }

    method ReleaseAttemptLock(id: AttemptId)
      requires id in attempts
      modifies this
      ensures View() == Release(old(View()), id)
    {
      if attempts[id].locked {
        locks := locks - {attempts[id].profile};
        attempts := attempts[id := attempts[id].(locked := false)];
      }
    }

    method CleanupAttempt(id: AttemptId)
      requires id in attempts
      modifies this
      ensures View() == Cleanup(old(View()), id)
    {
      ghost var before := View();
      ReleaseAttemptLock(id);
      var a := attempts[id].(files := 0);
      if a.open {
        a := a.(log := a.log.(closes := a.log.closes + 1));
      }
      attempts := attempts[id := a.(open := false)];
      assert a.(open := false) == CloseTarget(Release(before, id).attempts[id].(files := 0));
    }

    /** Finds a profile's attempt; an attempt idle for too long is cleaned up and forgotten. */
    method FindAttempt(profile: ProfileId, id: AttemptId, now: int) returns (found: bool)
      requires Known(View())
      modifies this
      ensures (View(), found) == Lookup(old(View()), profile, id, now)
    {
      if profile !in current || current[profile] != id {
        return false;
      }
      if !attempts[id].running && now - attempts[id].lastActivity >= IDLE_LIMIT {
        CleanupAttempt(id);
        current := current - {profile};
        return false;
      }
      attempts := attempts[id := attempts[id].(lastActivity := now)];
      return true;
    }

    method Start(id: AttemptId, profile: ProfileId, named: bool, now: int) returns (reply: Reply)
      requires Known(View()) && id !in attempts
      modifies this
      ensures (View(), reply) == StartStep(old(View()), id, profile, named, now)
    {
      if closed {
        return Refused(AttemptInvalid);
      }
      if profile in current {
        var value := current[profile];
        if !attempts[value].running && now - attempts[value].lastActivity >= IDLE_LIMIT {
          CleanupAttempt(value);
          current := current - {profile};
        } else if !Terminal(attempts[value].state) || attempts[value].running {
          return Refused(ImportBusy);
        }
      }
      if !named {
        return Refused(ImportInvalid);
      }
      attempts := attempts[id := Attempt(
                         profile, SourceRequired, 1, now, false, false, 0, false, true, None, Idle,
                             Log(false, 0, false, 0))];
      current := current[profile := id];
      return Accepted;
    }

    method StageBegin(profile: ProfileId, id: AttemptId, expected: nat, now: int, lockable: bool) returns (reply: Reply)
      requires Known(View())
      modifies this
      ensures (View(), reply) == StageBeginStep(old(View()), profile, id, expected, now, lockable)
    {
      var found := FindAttempt(profile, id, now);
      if !found {
        return Refused(AttemptInvalid);
      }
      if attempts[id].version != expected {
        return Refused(AttemptStale);
      }
      if attempts[id].state != SourceRequired {
        return Refused(AttemptInvalid);
      }
      if !lockable {
        return Refused(ProfileInvalid);
      }
      if profile in locks {
        return Refused(ImportBusy);
      }
      locks := locks[profile := ByAttempt(id)];
      attempts := attempts[id := attempts[id].(locked := true, running := true, cancelRequested := false,
          work := Staging)];
      return Accepted;
    }

    method StageEnd(id: AttemptId, staged: StageOutcome) returns (reply: Reply)
      requires id in attempts
      modifies this
      ensures (View(), reply) == StageEndStep(old(View()), id, staged)
    {
      var a := attempts[id].(running := false, work := Idle);
      if closed {
        attempts := attempts[id := a];
        CleanupAttempt(id);
        current := current - {a.profile};
        return Refused(AttemptInvalid);
      }
      if a.cancelRequested || staged == StageError(ImportCanceled) {
        attempts := attempts[id := a.(state := Canceled, version := a.version + 1)];
        CleanupAttempt(id);
        return Refused(ImportCanceled);
      }
      if staged.StageError? {
        attempts := attempts[id := a];
        ReleaseAttemptLock(id);
        return Refused(staged.code);
      }
      attempts := attempts[id := a.(files := staged.count, version := a.version + 1)];
      return Accepted;
    }

    method ExecuteBegin(profile: ProfileId, id: AttemptId, expected: nat, now: int) returns (reply: Reply)
      requires Known(View())
      modifies this
      ensures (View(), reply) == ExecuteBeginStep(old(View()), profile, id, expected, now)
    {
      var found := FindAttempt(profile, id, now);
      if !found {
        return Refused(AttemptInvalid);
      }
      if attempts[id].version != expected {
        return Refused(AttemptStale);
      }
      if attempts[id].state != SourceRequired || attempts[id].files == 0 || !attempts[id].locked {
        return Refused(AttemptInvalid);
      }
      attempts := attempts[id := attempts[id].(state := Parsing, running := true, cancelRequested := false,
                                               version := attempts[id].version + 1, work := InParse)];
      return Accepted;
    }

    method UpdateProgress(id: AttemptId, now: int)
      requires Enabled(View(), Progress(id, now)) && Known(View())
      modifies this
      ensures View() == Apply(old(View()), Progress(id, now)).0
    {
      attempts := attempts[id := attempts[id].(lastActivity := now)];
    }

    /** After a parse that succeeded the attempt installs, unless a cancel came first. */
    method ParseEnd(id: AttemptId, parsed: Outcome)
      requires Enabled(View(), Event.ParseEnd(id, parsed)) && Known(View())
      modifies this
      ensures View() == Apply(old(View()), Event.ParseEnd(id, parsed)).0
    {
      var a := attempts[id];
      if parsed.Error? {
        a := a.(work := Stopping(parsed));
      } else if a.cancelRequested {
        a := a.(work := Stopping(Error(ImportCanceled)));
      } else {
        a := a.(state := Installing, version := a.version + 1, work := Ready);
      }
      attempts := attempts[id := a];
    }

    /** Outside the mutex: the import is called, unless the target has no import boundary. */
    method ImportCall(id: AttemptId, available: bool)
      requires Enabled(View(), Event.ImportCall(id, available)) && Known(View())
      modifies this
      ensures View() == Apply(old(View()), Event.ImportCall(id, available)).0
    {
      var a := attempts[id];
      if !available {
        attempts := attempts[id := a.(work := Stopping(Error(ProfileInvalid)))];
      } else {
        attempts := attempts[id := a.(work := InImport, log := a.log.(calls := a.log.calls + 1))];
      }
    }

    method ImportEnd(id: AttemptId, installed: Outcome)
      requires Enabled(View(), Event.ImportEnd(id, installed)) && Known(View())
      modifies this
      ensures View() == Apply(old(View()), Event.ImportEnd(id, installed)).0
    {
      var a := attempts[id];
      attempts := attempts[id := a.(work := Stopping(installed), log := a.log.(imported := installed.Success?))];
    }

    /** A parse or an install that panics stops the attempt with an unmapped error. */
    method FailPanickedAttempt(id: AttemptId) returns (reply: Reply)
      requires Enabled(View(), Panic(id)) && Known(View())
      modifies this
      ensures Known(Apply(old(View()), Panic(id)).0)
      ensures (View(), reply) == FinishStep(Apply(old(View()), Panic(id)).0, id, Error(Unmapped))
    {
      hide CloseTarget;
      attempts := attempts[id := attempts[id].(work := Stopping(Error(Unmapped)))];
      reply := Finish(id);
    }

    method Finish(id: AttemptId) returns (reply: Reply)
      requires id in attempts && attempts[id].work.Stopping?
      modifies this
      ensures (View(), reply) == FinishStep(old(View()), id, old(attempts[id].work.outcome))
    {
      var outcome := attempts[id].work.outcome;
      var a := attempts[id].(running := false, version := attempts[id].version + 1, work := Idle);
      if a.cancelRequested || outcome == Error(ImportCanceled) {
        a := a.(state := Canceled);
      } else if outcome.Success? {
        a := a.(state := Complete);
      } else {
        a := a.(state := Failed, failure := Some(outcome.code));
      }
      attempts := attempts[id := a];
      CleanupAttempt(id);
      reply := if outcome.Success? then Accepted else Refused(outcome.code);
    }

    method Status(profile: ProfileId, id: AttemptId, now: int) returns (found: bool)
      requires Known(View())
      modifies this
      ensures (View(), found) == Lookup(old(View()), profile, id, now)
    {
      found := FindAttempt(profile, id, now);
    }

    method Cancel(profile: ProfileId, id: AttemptId, expected: nat, now: int) returns (reply: Reply)
      requires Known(View())
      modifies this
      ensures (View(), reply) == CancelStep(old(View()), profile, id, expected, now)
    {
      var found := FindAttempt(profile, id, now);
      if !found {
        return Refused(AttemptInvalid);
      }
      var a := attempts[id];
      if a.version != expected {
        return Refused(AttemptStale);
      }
      if a.state == Installing {
        return Refused(AttemptInvalid);
      }
      if Terminal(a.state) && !a.running {
        return Refused(AttemptInvalid);
      }
      a := a.(state := Canceled, version := a.version + 1, log := a.log.(acknowledged := true));
      if a.running {
        attempts := attempts[id := a.(cancelRequested := true)];
        return Accepted;
      }
      attempts := attempts[id := a];
      CleanupAttempt(id);
      return Accepted;
    }

    /** Refuses new work and cleans up every attempt that is not running. */
    method Close()
      requires Known(View())
      modifies this
      ensures View() == CloseStep(old(View()))
    {
      hide CloseSome, CloseStep, Cleanup, Known;
      ghost var before := View();
      closed := true;
      var todo := current.Keys;
      ClosingNone(before, todo);
      while todo != {}
        invariant todo <= before.current.Keys
        invariant Known(before) && View() == CloseSome(before, before.current.Keys - todo)
        decreases todo
      {
        var profile :| profile in todo;
        ClosingLookup(before, before.current.Keys - todo, profile);
        ClosingOne(before, before.current.Keys - todo, profile);
        assert before.current.Keys - (todo - {profile}) == before.current.Keys - todo + {profile};
        todo := todo - {profile};
        var id := current[profile];
        if !attempts[id].running {
          CleanupAttempt(id);
          current := current - {profile};
        }
      }
      ClosingAll(before);
    }
  }

  // Close after the profiles in `done`.
  function CloseSome(s: System, done: set<ProfileId>): System
    requires Known(s)
  {
    var idle := set p | p in s.current && p in done && !s.attempts[s.current[p]].running;
    System(
      true, s.current - idle,
      map id | id in s.attempts ::
        if IsCurrent(s, id) && s.attempts[id].profile in idle then Dropped(s.attempts[id]) else s.attempts[id],
      map p | p in s.locks && !(p in idle && s.attempts[s.current[p]].locked) :: s.locks[p],
      s.directories)
  }

  lemma ClosingNone(s: System, todo: set<ProfileId>)
    requires Known(s) && todo == s.current.Keys
    ensures s.(closed := true) == CloseSome(s, s.current.Keys - todo)
  {
    assert CloseSome(s, {}).attempts == s.attempts;
    assert CloseSome(s, {}).locks == s.locks;
    assert CloseSome(s, {}).current == s.current;
    assert s.current.Keys - todo == {};
  }

  lemma ClosingAll(s: System)
    requires Known(s)
    ensures CloseSome(s, s.current.Keys - {}) == CloseStep(s)
  {
    assert CloseSome(s, s.current.Keys).attempts == CloseStep(s).attempts;
    assert CloseSome(s, s.current.Keys).locks == CloseStep(s).locks;
    assert CloseSome(s, s.current.Keys).current == CloseStep(s).current;
    assert s.current.Keys - {} == s.current.Keys;
  }

  lemma ClosingLookup(s: System, done: set<ProfileId>, profile: ProfileId)
    requires Known(s) && profile in s.current && profile !in done
    ensures
      var t := CloseSome(s, done);
      && profile in t.current && t.current[profile] == s.current[profile]
      && t.current[profile] in t.attempts && t.attempts[t.current[profile]] == s.attempts[s.current[profile]]
  {
  }

  lemma ClosingAttempts(s: System, done: set<ProfileId>, profile: ProfileId)
    requires Known(s) && profile in s.current && profile !in done
    ensures
      var (t, u) := (CloseSome(s, done), CloseSome(s, done + {profile}));
      var id := s.current[profile];
      u.attempts == if s.attempts[id].running then t.attempts else t.attempts[id := Dropped(s.attempts[id])]
  {
    hide CloseTarget;
    var id := s.current[profile];
    var t, u := CloseSome(s, done), CloseSome(s, done + {profile});
    hide Dropped;
    forall x | x in s.attempts
      ensures u.attempts[x] == if !s.attempts[id].running && x == id then Dropped(s.attempts[id]) else t.attempts[x]
    {
    }
  }

  lemma ClosingTables(s: System, done: set<ProfileId>, profile: ProfileId)
    requires Known(s) && profile in s.current && profile !in done
    ensures
      var (t, u) := (CloseSome(s, done), CloseSome(s, done + {profile}));
      var a := s.attempts[s.current[profile]];
      && u.current == (if a.running then t.current else t.current - {profile})
      && u.locks == (if !a.running && a.locked then t.locks - {profile} else t.locks)
  {
    hide CloseTarget;
  }

  // The next profile: its attempt is cleaned up and forgotten unless it runs.
  lemma ClosingOne(s: System, done: set<ProfileId>, profile: ProfileId)
    requires Known(s) && profile in s.current && profile !in done
    ensures
      var (t, u) := (CloseSome(s, done), CloseSome(s, done + {profile}));
      var id := s.current[profile];
      if s.attempts[id].running then u == t else id in t.attempts && u == Forget(Cleanup(t, id), profile)
  {
    ClosingLookup(s, done, profile);
    ClosingAttempts(s, done, profile);
    ClosingTables(s, done, profile);
    var id := s.current[profile];
    var t, u := CloseSome(s, done), CloseSome(s, done + {profile});
    assert u.closed == t.closed && u.directories == t.directories;
    assert s.attempts[id].profile == profile;
    hide CloseSome;
    if !s.attempts[id].running {
      CleanupDrops(t, id);
    }
  }

  lemma CleanupDrops(t: System, id: AttemptId)
    requires id in t.attempts
    ensures Cleanup(t, id) == System(
      t.closed, t.current, t.attempts[id := Dropped(t.attempts[id])],
      if t.attempts[id].locked then t.locks - {t.attempts[id].profile} else t.locks, t.directories)
  {
    CleanupAttempts(t, id);
  }
}

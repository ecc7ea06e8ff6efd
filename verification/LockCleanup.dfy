/** What an attempt that fails leaves of its private candidate directory. */
module LockCleanup {
  import opened DirectoryLock

  /** The candidate holds nothing but the attempt's own file, and nothing is left of it once it has been
      renamed into place. */
  predicate PrivateOk(n: Nonce, a: Attempt) {
    match a.phase
    case Preparing => a.candidate == NoDir
    case Creating => a.candidate == Dir(map[])
    case Sweeping => a.candidate == Dir(map[])
    case Failed => a.candidate.Dir? ==> a.candidate.files.Keys <= {OwnerFile(n)}
    case Running => a.candidate == NoDir
    case Releasing(_) => a.candidate == NoDir
    case Parked => a.candidate == NoDir
    case Done => a.candidate == NoDir
    case _ => a.candidate.Dir? && a.candidate.files.Keys <= {OwnerFile(n)}
  }

  lemma MyStepIsPrivate(windows: bool, n: Nonce, v: View, o: Outcome)
    requires PrivateOk(n, v.me)
    ensures PrivateOk(n, MyStep(windows, n, v, o).me)
  {
    hide InspectStep, AcquireStep, ReleaseStep;
    match v.me.phase
    case Inspecting(i) => InspectIsPrivate(n, v, i, o);
    case Releasing(r) => ReleaseIsPrivate(n, v, r, o);
    case Running =>
    case Parked =>
    case _ => AcquireIsPrivate(windows, n, v, o);
  }

  lemma AcquireIsPrivate(windows: bool, n: Nonce, v: View, o: Outcome)
    requires PrivateOk(n, v.me)
    requires !v.me.phase.Inspecting? && !v.me.phase.Releasing? && !v.me.phase.Running? && !v.me.phase.Parked?
    ensures PrivateOk(n, AcquireStep(windows, n, v, o).me)
  {
    hide RecordOf;
  }

  lemma ReleaseIsPrivate(n: Nonce, v: View, r: Release, o: Outcome)
    requires PrivateOk(n, v.me) && v.me.phase == Releasing(r)
    ensures PrivateOk(n, ReleaseStep(n, v, r, o).me)
  {
    var w := ReleaseStep(n, v, r, o);
    assert w.me.candidate == v.me.candidate;
    assert w.me.phase.Releasing? || w.me.phase.Parked? || w.me.phase.Done?;
    hide ReleaseStep;
  }

  lemma InspectIsPrivate(n: Nonce, v: View, i: Inspection, o: Outcome)
    requires v.me.phase == Inspecting(i) && PrivateOk(n, v.me)
    ensures PrivateOk(n, InspectStep(v, i, o).me)
  {
    hide PrivateOk;
    var w := InspectStep(v, i, o);
    assert w.me.candidate == v.me.candidate;
    assert w.me.phase.Inspecting? || w.me.phase.Checking? || w.me.phase.Abandoning?;
    SamePrivate(n, v.me, w.me);
  }

  lemma SamePrivate(n: Nonce, a: Attempt, b: Attempt)
    requires PrivateOk(n, a) && a.phase.Inspecting? && b.candidate == a.candidate
    requires b.phase.Inspecting? || b.phase.Checking? || b.phase.Abandoning?
    ensures PrivateOk(n, b)
  {
  }

  lemma StepIsPrivate(s: State, a: Action, n: Nonce)
    requires Enabled(s, a) && n in Next(s, a).attempts
    requires n in s.attempts ==> PrivateOk(n, s.attempts[n])
    ensures PrivateOk(n, Next(s, a).attempts[n])
  {
    if a.Act? && a.nonce == n {
      MyStepIsPrivate(s.windows, n, View(s.attempts[n], s.lock), a.outcome);
    }
    hide MyStep;
  }

  lemma {:induction false} RunIsPrivate(s: State, run: seq<Action>, n: Nonce)
    requires Possible(s, run) && n in After(s, run).attempts
    requires n in s.attempts ==> PrivateOk(n, s.attempts[n])
    ensures PrivateOk(n, After(s, run).attempts[n])
    decreases |run|
  {
    if run != [] {
      if n in Next(s, run[0]).attempts {
        StepIsPrivate(s, run[0], n);
      }
      RunIsPrivate(Next(s, run[0]), run[1..], n);
    }
  }

  /** Each call of the attempt succeeds, or is refused and tried again. */
  predicate Unfailing(run: seq<Action>, n: Nonce) {
    forall i | 0 <= i < |run| && run[i].Act? && run[i].nonce == n :: run[i].outcome.Proceed? || run[i].outcome.Refuse?
  }

  /** How far the clean-up of a candidate has come that held `files` when it began. */
  predicate CleansUp(a: Attempt, n: Nonce, files: Dir) {
    || (a.phase.Abandoning? && a.candidate == Dir(files))
    || (a.phase.Sweeping? && OwnerFile(n) in files && a.candidate == Dir(map[]))
    || (a.phase.Failed? && a.candidate == if OwnerFile(n) in files then NoDir else Dir(files))
  }

  lemma StepCleansUp(s: State, a: Action, n: Nonce, files: Dir)
    requires Enabled(s, a) && n in s.attempts && CleansUp(s.attempts[n], n, files) && files.Keys <= {OwnerFile(n)}
    requires a.Act? && a.nonce == n ==> a.outcome.Proceed? || a.outcome.Refuse?
    ensures n in Next(s, a).attempts && CleansUp(Next(s, a).attempts[n], n, files)
  {
    if a.Act? && a.nonce == n {
      assert files - {OwnerFile(n)} == map[];
    } else {
      hide MyStep;
    }
  }

  lemma {:induction false} RunCleansUp(s: State, run: seq<Action>, n: Nonce, files: Dir)
    requires Possible(s, run) && n in s.attempts && CleansUp(s.attempts[n], n, files) && files.Keys <= {OwnerFile(n)}
    requires Unfailing(run, n)
    ensures n in After(s, run).attempts && CleansUp(After(s, run).attempts[n], n, files)
    decreases |run|
  {
    if run != [] {
      StepCleansUp(s, run[0], n, files);
      hide CleansUp, Enabled, Next;
      RunCleansUp(Next(s, run[0]), run[1..], n, files);
    }
  }

  /** Whatever else happens meanwhile: an attempt that gives up and whose clean-up calls are not failed
      leaves nothing of its candidate exactly when it had written its owner file; a directory that never
      held one stays behind, empty. */
  lemma CleanUpLeavesNothing(t: State, n: Nonce, run: seq<Action>)
    requires Reachable(t) && n in t.attempts && t.attempts[n].phase.Abandoning?
    requires Possible(t, run) && Unfailing(run, n)
    requires n in After(t, run).attempts && After(t, run).attempts[n].phase.Failed?
    ensures t.attempts[n].candidate.Dir?
    ensures After(t, run).attempts[n].candidate ==
            if OwnerFile(n) in t.attempts[n].candidate.files then NoDir else Dir(map[])
  {
    var s, before :| Init(s) && Possible(s, before) && After(s, before) == t;
    RunIsPrivate(s, before, n);
    var files := t.attempts[n].candidate.files;
    RunCleansUp(t, run, n, files);
    if OwnerFile(n) !in files {
      assert files == map[];
    }
  }

  /** And two calls that are not refused end it. */
  lemma CleanUpEnds(s: State, n: Nonce) returns (run: seq<Action>)
    requires Live(s, n) && PrivateOk(n, s.attempts[n]) && s.attempts[n].phase.Abandoning?
    ensures Possible(s, run) && Unfailing(run, n) && |run| <= 2
    ensures n in After(s, run).attempts && After(s, run).attempts[n].phase.Failed?
  {
    var a := Act(n, Proceed);
    var files := s.attempts[n].candidate.files;
    assert files - {OwnerFile(n)} == map[];
    var t := Next(s, a);
    if t.attempts[n].phase.Failed? {
      run := [a];
      assert [a] == [a] + [];
      PossibleCons(s, a, []);
    } else {
      run := [a] + [a];
      assert [a] == [a] + [];
      PossibleCons(t, a, []);
      PossibleCons(s, a, [a]);
    }
  }

  // ----- calls that fail -----

  /** Refused calls that are tried again where they were: those of a clean-up, and the replace that
      publishes a release. */
  predicate Retried(phase: Phase) {
    match phase
    case Abandoning => true
    case Sweeping => true
    case Inspecting(i) => i.UnlinkOwner? || i.Rmdir?
    case Releasing(r) => r.Replace? || r.UnlinkOwn? || r.RmdirOwn?
    case _ => false
  }

  /** A call that fails changes no file.  An attempt that has not entered then goes to its clean-up, except
      that what is held is looked at again; a release that fails is parked as pending. */
  lemma FailedCallTells(windows: bool, n: Nonce, v: View, o: Outcome)
    requires !o.Proceed? && !v.me.phase.Running? && !v.me.phase.Parked?
    ensures var w := MyStep(windows, n, v, o);
            && w.lock == v.lock && w.me.candidate == v.me.candidate
            && w.me.phase ==
               match v.me.phase
               case Preparing => Failed
               case Creating => Abandoning
               case Writing => Abandoning
               case Checking => Abandoning
               case Renaming => if o.GiveUp? then Abandoning else Inspecting(Lstat)
               case Inspecting(i) =>
                 if o.GiveUp? then Abandoning
                 else if o.Refuse? && Retried(v.me.phase) then v.me.phase
                 else Checking
               case Abandoning => if o.Refuse? then Abandoning else Failed
               case Sweeping => if o.Refuse? then Sweeping else Failed
               case Releasing(r) => if o.Refuse? && Retried(v.me.phase) then v.me.phase else Parked
               case Running => Running
               case Parked => Parked
               case Failed => Failed
               case Done => Done
    ensures v.me.phase.Releasing? && MyStep(windows, n, v, o).me.phase.Parked? ==> MyStep(windows, n, v, o).me.pending
  {
    match v.me.phase
    case Inspecting(i) => hide AcquireStep, ReleaseStep;
    case Releasing(r) => hide AcquireStep, InspectStep;
    case _ => hide ReleaseStep, InspectStep;
  }

  /** An attempt fails at its very first call, or out of its clean-up; from nowhere else. */
  lemma FailsOutOfCleanUp(windows: bool, n: Nonce, v: View, o: Outcome)
    requires MyStep(windows, n, v, o).me.phase.Failed?
    ensures v.me.phase.Preparing? || v.me.phase.Abandoning? || v.me.phase.Sweeping? || v.me.phase.Failed?
  {
    match v.me.phase
    case Inspecting(i) => hide AcquireStep, ReleaseStep;
    case Releasing(r) => hide AcquireStep, InspectStep;
    case _ => hide ReleaseStep, InspectStep;
  }

  /** A release begins with the attempt's own record: gone, there is nothing to do; published before, its
      removal goes on without the temp file; any other of its own is published first, and what is not its
      own is left. */
  lemma ReleaseBegins(n: Nonce, v: View)
    requires v.me.phase == Releasing(ReadOwn)
    ensures var w, files := ReleaseStep(n, v, ReadOwn, Proceed), Files(v.lock);
            && w.lock == v.lock
            && if OwnerFile(n) !in files then w.me.phase.Done? && !w.me.pending
               else if files[OwnerFile(n)].Complete? && files[OwnerFile(n)].owner.nonce == n then
                 w.me.phase == Releasing(if files[OwnerFile(n)].owner.released then CleanTemp else CreateTemp)
               else w.me.phase.Parked? && w.me.pending
    ensures var w := ReleaseStep(n, v, CleanTemp, Proceed);
            && w.me.phase == Releasing(UnlinkOwn)
            && w.lock == if v.lock.Directory? then Directory(v.lock.entries - {TempFile(n)}) else v.lock
  {
  }

  // ----- a path that is no directory -----

  /** A legacy lock file, or anything else that is neither missing nor a directory. */
  predicate Foreign(lock: Node) {
    lock.LegacyFile? || lock.Special?
  }

  /** No call changes such a path; the next look at it ends the attempt, and an inspection ends it too
      when it is a legacy file. */
  lemma ForeignPathIsLeft(s: State, a: Action)
    requires Foreign(s.lock) && Enabled(s, a)
    ensures Next(s, a).lock == s.lock
    ensures a.Act? && a.outcome.Proceed? ==>
              var was, now := s.attempts[a.nonce].phase, Next(s, a).attempts[a.nonce].phase;
              && (was.Checking? ==> now.Abandoning?)
              && (was == Inspecting(Lstat) ==> now == if s.lock.LegacyFile? then Abandoning else Checking)
              && (was.Renaming? ==> now == Inspecting(Lstat))
  {
    if a.Act? {
      ForeignCall(s.windows, a.nonce, View(s.attempts[a.nonce], s.lock), a.outcome);
    }
  }

  lemma ForeignCall(windows: bool, n: Nonce, v: View, o: Outcome)
    requires Foreign(v.lock)
    ensures MyStep(windows, n, v, o).lock == v.lock
  {
    match v.me.phase
    case Inspecting(i) => hide AcquireStep, ReleaseStep;
    case Releasing(r) => hide AcquireStep, InspectStep;
    case _ => hide ReleaseStep, InspectStep;
  }

  /** So no run of any length changes it, and nobody is ever inside a callback there. */
  lemma {:induction false} ForeignPathStays(s: State, run: seq<Action>, n: Nonce)
    requires Inv(s) && Foreign(s.lock) && Possible(s, run)
    ensures After(s, run).lock == s.lock
    ensures Live(After(s, run), n) ==> !After(s, run).attempts[n].phase.Running?
    decreases |run|
  {
    if run == [] {
      if Live(s, n) {
        assert Good(s, n);
      }
    } else {
      ForeignPathIsLeft(s, run[0]);
      StepKeepsInv(s, run[0]);
      hide Inv, Next, Enabled;
      ForeignPathStays(Next(s, run[0]), run[1..], n);
    }
  }
}

/** Can a path ever be acquired again?  Over everything a released or exited owner can leave on it,
    and whatever others are in the middle of. */
module LockReacquire {
  import opened DirectoryLock
  import opened LockRecovery

  predicate IsRunning(t: State, n: Nonce) {
    Live(t, n) && t.attempts[n].phase.Running?
  }

  /** Some run brings some attempt into its callback. */
  ghost predicate CanBeAcquired(t: State) {
    exists run, n :: Possible(t, run) && IsRunning(After(t, run), n)
  }

  /** The owner has released or exited, and nobody else's files are on the path. */
  predicate Gone(t: State, m: Nonce) {
    m in t.attempts && (!Live(t, m) || t.attempts[m].published) && Leavings(m, t.lock)
  }

  /** The next call of this attempt, or the one after, is an rmdir. */
  predicate Removes(a: Attempt) {
    a.phase == Inspecting(Rmdir) || a.phase == Releasing(RmdirOwn) || (a.phase.Parked? && a.unlinked)
  }

  predicate Remover(t: State, r: Nonce) {
    Live(t, r) && Removes(t.attempts[r])
  }

  /** A live process has the owner's PID, in its realm: as long as it runs the owner looks alive. */
  predicate Squats(t: State, p: nat, m: Nonce)
    requires m in t.attempts
  {
    Alive(t, p) && t.attempts[m].identity == Known(t.processes[p].realm) && t.processes[p].pid == t.attempts[m].pid
  }

  predicate Unlinks(t: State, n: Nonce, m: Nonce) {
    Live(t, n) && t.attempts[n].phase == Inspecting(UnlinkTemp(m))
  }

  /** Waits for a dead verdict it can still get, and unlinks the temp file after it. */
  predicate Probes(t: State, n: Nonce, m: Nonce)
    requires m in t.attempts
  {
    && Live(t, n)
    && t.attempts[n].phase.Inspecting?
    && t.attempts[n].phase.inspection.Probe?
    && t.attempts[n].phase.inspection.target == m
    && t.attempts[n].phase.inspection.temporary
    && !Squats(t, t.attempts[n].proc, m)
  }

  predicate SomeRemover(t: State) {
    exists r | r in t.attempts :: Remover(t, r)
  }

  predicate SomeOtherRemover(t: State, m: Nonce)
    requires m in t.attempts
  {
    exists r | r in t.attempts :: Remover(t, r) && !Squats(t, t.attempts[r].proc, m)
  }

  /** An orphaned temp file goes only by a sweep already due, and the directory with it. */
  predicate Sweepable(t: State, m: Nonce)
    requires m in t.attempts
  {
    || ((exists n | n in t.attempts :: Unlinks(t, n, m)) && (!t.windows || SomeRemover(t)))
    || ((exists n | n in t.attempts :: Probes(t, n, m)) && (!t.windows || SomeOtherRemover(t, m)))
  }

  /** What is left can go. */
  predicate Reacquirable(t: State, m: Nonce)
    requires m in t.attempts
  {
    var files := Files(t.lock);
    || t.lock.Missing?
    || (OwnerFile(m) in files && (t.attempts[m].identity.Known? || Live(t, m)))
    || (t.lock.Directory? && files == map[] && (!t.windows || SomeRemover(t)))
    || (files.Keys == {TempFile(m)} && Sweepable(t, m))
  }

  // ----- it can be acquired -----

  lemma StepBack(t: State, a: Action)
    requires Enabled(t, a) && CanBeAcquired(Next(t, a))
    ensures CanBeAcquired(t)
  {
    var run, n :| Possible(Next(t, a), run) && IsRunning(After(Next(t, a), run), n);
    PossibleCons(t, a, run);
  }

  lemma RunBack(t: State, run: seq<Action>)
    requires Possible(t, run) && CanBeAcquired(After(t, run))
    ensures CanBeAcquired(t)
  {
    var rest, n :| Possible(After(t, run), rest) && IsRunning(After(After(t, run), rest), n);
    PossibleConcat(t, run, rest);
  }

  lemma {:induction false} Fresh(used: set<nat>) returns (x: nat)
    ensures forall y | y in used :: y < x
  {
    if used == {} {
      x := 0;
    } else {
      var y :| y in used;
      var z := Fresh(used - {y});
      assert used == used - {y} + {y};
      x := if y < z then z else y + 1;
    }
  }

  predicate Acquiring(phase: Phase) {
    phase.Preparing? || phase.Creating? || phase.Writing? || phase.Checking? || phase.Renaming?
  }

  function Togo(phase: Phase): nat {
    match phase
    case Preparing => 5
    case Creating => 4
    case Writing => 3
    case Checking => 2
    case _ => 1
  }

  /** One unrefused call of an attempt that is acquiring. */
  lemma AcquireOne(t: State, n: Nonce)
    requires Inv(t) && Live(t, n) && Acquiring(t.attempts[n].phase) && (t.lock.Missing? || t.lock.Directory?)
    ensures Enabled(t, Act(n, Proceed))
    ensures var u := Next(t, Act(n, Proceed));
            var phase := u.attempts[n].phase;
            && Inv(u) && Live(u, n) && u.processes == t.processes && u.windows == t.windows
            && u.attempts.Keys == t.attempts.Keys
            && (forall q | q in t.attempts && q != n :: u.attempts[q] == t.attempts[q])
            && SameCall(t.attempts[n], u.attempts[n])
            && if t.attempts[n].phase.Renaming? then
                 if CanReplace(t.windows, t.lock) then phase.Running?
                 else phase == Inspecting(Lstat) && u.lock == t.lock
               else Acquiring(phase) && Togo(phase) < Togo(t.attempts[n].phase) && u.lock == t.lock
  {
    assert Good(t, n);
    StepKeepsInv(t, Act(n, Proceed));
    AcquireSameCall(t.windows, n, View(t.attempts[n], t.lock), Proceed);
    hide Inv, KnowledgeOk, Good, Grows;
  }

  lemma PhaseAcquires(t: State, n: Nonce)
    requires Inv(t) && Live(t, n) && Acquiring(t.attempts[n].phase) && CanReplace(t.windows, t.lock)
    ensures CanBeAcquired(t)
    decreases Togo(t.attempts[n].phase)
  {
    AcquireOne(t, n);
    var u := Next(t, Act(n, Proceed));
    hide Inv, Enabled, Next;
    if t.attempts[n].phase.Renaming? {
      assert Possible(u, []) && After(u, []) == u && IsRunning(u, n);
    } else {
      PhaseAcquires(u, n);
    }
    StepBack(t, Act(n, Proceed));
  }

  function Pids(t: State): set<nat> {
    (set q | q in t.processes :: t.processes[q].pid) + (set q | q in t.attempts :: t.attempts[q].pid)
  }

  lemma PidsHold(t: State)
    ensures forall q | q in t.processes :: t.processes[q].pid in Pids(t)
    ensures forall q | q in t.attempts :: t.attempts[q].pid in Pids(t)
  {
  }

  /** A process starts, with a PID nobody has or had. */
  lemma ProcessStarts(t: State, realm: nat) returns (u: State, p: nat, pid: nat)
    requires Inv(t)
    ensures p !in t.processes && u == t.(processes := t.processes[p := Process(pid, realm, true)])
    ensures Inv(u) && (CanBeAcquired(u) ==> CanBeAcquired(t))
    ensures forall q | q in t.attempts :: t.attempts[q].pid != pid
  {
    p := Fresh(t.processes.Keys);
    pid := Fresh(Pids(t));
    PidsHold(t);
    assert NobodyHas(t, Known(realm), pid);
    hide Inv, Pids;
    var a := Spawn(p, pid, realm);
    StepKeepsInv(t, a);
    u := Next(t, a);
    if CanBeAcquired(u) {
      StepBack(t, a);
    }
  }

  lemma AttemptBegins(t: State, p: nat, identity: Identity) returns (u: State, n: Nonce)
    requires Inv(t) && Alive(t, p) && (identity.Known? ==> identity.realm == t.processes[p].realm)
    ensures n !in t.attempts
    ensures var a := Attempt(p, t.processes[p].pid, identity, Preparing, NoDir, false, false, false);
            u == t.(attempts := t.attempts[n := a])
    ensures Inv(u) && (CanBeAcquired(u) ==> CanBeAcquired(t))
  {
    n := Fresh(t.attempts.Keys + t.retired);
    hide Inv;
    var a := Begin(n, p, identity);
    StepKeepsInv(t, a);
    u := Next(t, a);
    if CanBeAcquired(u) {
      StepBack(t, a);
    }
  }

  /** A new process starts a new attempt; nothing else differs. */
  lemma Newcomer(t: State, realm: nat, identity: Identity) returns (u: State, n: Nonce, pid: nat)
    requires Inv(t) && (identity.Known? ==> identity.realm == realm)
    ensures CanBeAcquired(u) ==> CanBeAcquired(t)
    ensures Inv(u) && n !in t.attempts && Live(u, n)
    ensures u.lock == t.lock && u.windows == t.windows
    ensures u.attempts == t.attempts[n := u.attempts[n]]
    ensures u.attempts[n].phase.Preparing? && u.attempts[n].identity == identity
    ensures forall other, id | NobodyHas(t, other, id) && id != pid :: NobodyHas(u, other, id)
    ensures forall q | q in t.attempts :: t.attempts[q].pid != pid
  {
    var s, p, id := ProcessStarts(t, realm);
    pid := id;
    u, n := AttemptBegins(s, p, identity);
    hide Inv;
  }

  lemma FreeIsAcquired(t: State)
    requires Inv(t) && CanReplace(t.windows, t.lock)
    ensures CanBeAcquired(t)
  {
    var u, n, _ := Newcomer(t, 0, Unknown);
    hide Inv;
    PhaseAcquires(u, n);
  }

  /** An inspection that has just begun reclaims the record of a gone owner of its realm. */
  lemma InspectionReclaims(t: State, n: Nonce, m: Nonce)
    requires Inv(t) && Live(t, n) && t.attempts[n].phase == Inspecting(Lstat) && n != m
    requires Reclaimable(t, n, m) && Leavings(m, t.lock) && OwnerFile(m) in Files(t.lock)
    ensures CanBeAcquired(t)
  {
    assert Inspects(t, n, m);
    var run := InspectionRun(t, n, m);
    RunKeepsInv(t, run);
    hide Inv, Enabled, Next, Possible, CanBeAcquired;
    PhaseAcquires(After(t, run), n);
    RunBack(t, run);
  }

  lemma PhaseReclaims(t: State, n: Nonce, m: Nonce)
    requires Inv(t) && Live(t, n) && Acquiring(t.attempts[n].phase) && n != m
    requires Reclaimable(t, n, m) && Leavings(m, t.lock) && OwnerFile(m) in Files(t.lock)
    ensures CanBeAcquired(t)
    decreases Togo(t.attempts[n].phase)
  {
    AcquireOne(t, n);
    var u := Next(t, Act(n, Proceed));
    hide Inv, Enabled, Next, CanBeAcquired;
    assert Reclaimable(u, n, m);
    if t.attempts[n].phase.Renaming? {
      InspectionReclaims(u, n, m);
    } else {
      PhaseReclaims(u, n, m);
    }
    StepBack(t, Act(n, Proceed));
  }

  // ----- waiting for a reused PID to go -----

  function Without(t: State, ps: set<nat>): State {
    t.(processes := map p | p in t.processes :: if p in ps then t.processes[p].(alive := false) else t.processes[p])
  }

  /** Processes exit one by one. */
  lemma {:induction false} TheyExit(t: State, ps: set<nat>)
    requires Inv(t) && forall p | p in ps :: Alive(t, p)
    ensures Inv(Without(t, ps)) && (CanBeAcquired(Without(t, ps)) ==> CanBeAcquired(t))
    decreases ps
  {
    if ps == {} {
      assert Without(t, ps).processes == t.processes;
    } else {
      var p :| p in ps;
      var u := Next(t, Crash(p));
      StepKeepsInv(t, Crash(p));
      hide Inv, CanBeAcquired;
      TheyExit(u, ps - {p});
      assert Without(u, ps - {p}).processes == Without(t, ps).processes;
      if CanBeAcquired(u) {
        StepBack(t, Crash(p));
      }
    }
  }

  function Squatters(t: State, m: Nonce): set<nat>
    requires m in t.attempts
  {
    set p | p in t.processes && Squats(t, p, m)
  }

  lemma NobodyHasThen(t: State, m: Nonce)
    requires m in t.attempts && t.attempts[m].identity.Known?
    ensures NobodyHas(Without(t, Squatters(t, m)), t.attempts[m].identity, t.attempts[m].pid)
  {
  }

  lemma RecordIsReclaimed(t: State, m: Nonce)
    requires Inv(t) && Gone(t, m) && OwnerFile(m) in Files(t.lock) && t.attempts[m].identity.Known?
    requires t.attempts[m].published || NobodyHas(t, t.attempts[m].identity, t.attempts[m].pid)
    ensures CanBeAcquired(t)
  {
    var identity := t.attempts[m].identity;
    var u, n, _ := Newcomer(t, identity.realm, identity);
    hide Inv, CanBeAcquired;
    PhaseReclaims(u, n, m);
  }

  lemma RecordCanGo(t: State, m: Nonce)
    requires Inv(t) && Gone(t, m) && OwnerFile(m) in Files(t.lock) && t.attempts[m].identity.Known?
    ensures CanBeAcquired(t)
  {
    if t.attempts[m].published {
      RecordIsReclaimed(t, m);
    } else {
      TheyExit(t, Squatters(t, m));
      NobodyHasThen(t, m);
      hide Inv, CanBeAcquired, Squatters;
      RecordIsReclaimed(Without(t, Squatters(t, m)), m);
    }
  }

  // ----- removals already due -----

  lemma RemoverActs(windows: bool, r: Nonce, v: View)
    requires Removes(v.me) && v.lock == Directory(map[])
    ensures var w := MyStep(windows, r, v, Proceed);
            if v.me.phase.Parked? then w == View(v.me.(phase := Releasing(RmdirOwn)), v.lock) else w.lock.Missing?
  {
  }

  lemma RemoverFrees(t: State, r: Nonce)
    requires Inv(t) && Remover(t, r) && t.lock == Directory(map[])
    ensures CanBeAcquired(t)
    decreases t.attempts[r].phase.Parked?
  {
    var a := Act(r, Proceed);
    StepKeepsInv(t, a);
    RemoverActs(t.windows, r, View(t.attempts[r], t.lock));
    hide Inv, CanBeAcquired, MyStep, Grows;
    var u := Next(t, a);
    if t.attempts[r].phase.Parked? {
      RemoverFrees(u, r);
    } else {
      FreeIsAcquired(u);
    }
    StepBack(t, a);
  }

  /** A live owner finishes its own release. */
  lemma ReleaseFrees(t: State, m: Nonce)
    requires Inv(t) && Live(t, m) && t.attempts[m].published && Leavings(m, t.lock) && OwnerFile(m) in Files(t.lock)
    ensures CanBeAcquired(t)
    decreases Rank(t.attempts[m].phase)
  {
    assert Good(t, m);
    var a := Act(m, Proceed);
    var u := Next(t, a);
    StepKeepsInv(t, a);
    ReleaseGoesOn(m, View(t.attempts[m], t.lock));
    hide Inv, CanBeAcquired, Good, ReleaseStep, MyStep;
    if OwnerFile(m) in Files(u.lock) {
      ReleaseFrees(u, m);
    } else {
      RemoverFrees(u, m);
    }
    StepBack(t, a);
  }

  lemma ReleaseGoesOn(m: Nonce, v: View)
    requires AttemptOk(m, v.me, v.lock, true) && v.me.published && Leavings(m, v.lock) && OwnerFile(m) in Files(v.lock)
    ensures forall windows ::
              var w := MyStep(windows, m, v, Proceed);
              && w.me.published
              && if OwnerFile(m) in Files(w.lock) then Leavings(m, w.lock) && Rank(w.me.phase) < Rank(v.me.phase)
                 else Removes(w.me) && w.lock == Directory(map[])
    ensures v.me.phase.Releasing? || v.me.phase.Parked?
  {
    assert forall windows :: MyStep(windows, m, v, Proceed) == MyStep(true, m, v, Proceed);
    if v.me.phase == Releasing(UnlinkOwn) {
      assert v.lock.entries - {OwnerFile(m)} == map[];
    }
  }

  lemma SweepActs(windows: bool, n: Nonce, v: View, m: Nonce)
    requires v.me.phase == Inspecting(UnlinkTemp(m)) && v.lock.Directory? && v.lock.entries.Keys == {TempFile(m)}
    ensures MyStep(windows, n, v, Proceed).lock == Directory(map[])
  {
    assert v.lock.entries - {TempFile(m)} == map[];
  }

  /** The temp file goes, and then the directory if somebody is about to remove it. */
  lemma SweepFrees(t: State, n: Nonce, m: Nonce)
    requires Inv(t) && m in t.attempts && Unlinks(t, n, m) && t.lock.Directory? && t.lock.entries.Keys == {TempFile(m)}
    requires !t.windows || SomeRemover(t)
    ensures CanBeAcquired(t)
  {
    var a := Act(n, Proceed);
    StepKeepsInv(t, a);
    SweepActs(t.windows, n, View(t.attempts[n], t.lock), m);
    hide Inv, CanBeAcquired, MyStep, Grows;
    var u := Next(t, a);
    if t.windows {
      var r :| r in t.attempts && Remover(t, r);
      assert r != n;
      assert Remover(u, r);
      RemoverFrees(u, r);
    } else {
      FreeIsAcquired(u);
    }
    StepBack(t, a);
  }

  lemma ProbeActs(s: State, n: Nonce, m: Nonce)
    requires Inv(s) && Live(s, n) && m in s.attempts && !Live(s, m)
    requires var phase := s.attempts[n].phase;
             phase.Inspecting? && phase.inspection.Probe? && phase.inspection.target == m && phase.inspection.temporary
    requires NobodyHas(s, s.attempts[m].identity, s.attempts[m].pid)
    ensures Enabled(s, Act(n, Proceed))
    ensures MyStep(s.windows, n, View(s.attempts[n], s.lock), Proceed)
            == View(s.attempts[n].(phase := Inspecting(UnlinkTemp(m))), s.lock)
    ensures s.attempts[m].identity.Known?
  {
    assert Good(s, n);
  }

  lemma ProbeIsOfItsRealm(t: State, n: Nonce, m: Nonce)
    requires Inv(t) && m in t.attempts && Probes(t, n, m)
    ensures t.attempts[m].identity.Known?
  {
    assert Good(t, n);
  }

  lemma ProbeFrees(t: State, n: Nonce, m: Nonce)
    requires Inv(t) && Gone(t, m) && !Live(t, m) && Probes(t, n, m)
    requires t.lock.Directory? && t.lock.entries.Keys == {TempFile(m)}
    requires !t.windows || SomeOtherRemover(t, m)
    ensures CanBeAcquired(t)
  {
    var ps := Squatters(t, m);
    ProbeIsOfItsRealm(t, n, m);
    TheyExit(t, ps);
    NobodyHasThen(t, m);
    if t.windows {
      var r :| r in t.attempts && Remover(t, r) && !Squats(t, t.attempts[r].proc, m);
      assert Remover(Without(t, ps), r);
    }
    hide Inv, CanBeAcquired, NobodyHas;
    DeadProbeFrees(Without(t, ps), n, m);
  }

  lemma DeadProbeFrees(s: State, n: Nonce, m: Nonce)
    requires Inv(s) && Live(s, n) && m in s.attempts && !Live(s, m)
    requires var phase := s.attempts[n].phase;
             phase.Inspecting? && phase.inspection.Probe? && phase.inspection.target == m && phase.inspection.temporary
    requires NobodyHas(s, s.attempts[m].identity, s.attempts[m].pid)
    requires s.lock.Directory? && s.lock.entries.Keys == {TempFile(m)} && (!s.windows || SomeRemover(s))
    ensures CanBeAcquired(s)
  {
    ProbeActs(s, n, m);
    var a := Act(n, Proceed);
    StepKeepsInv(s, a);
    hide Inv, CanBeAcquired, MyStep, Grows, NobodyHas;
    var u := Next(s, a);
    if s.windows {
      var r :| r in s.attempts && Remover(s, r);
      assert r != n;
      assert Remover(u, r);
    }
    SweepFrees(u, n, m);
    StepBack(s, a);
  }

  lemma CanGo(t: State, m: Nonce)
    requires Inv(t) && Gone(t, m) && Reacquirable(t, m)
    ensures CanBeAcquired(t)
  {
    var files := Files(t.lock);
    assert Good(t, m);
    hide Inv, CanBeAcquired, Good;
    if t.lock.Missing? || (t.lock == Directory(map[]) && !t.windows) {
      FreeIsAcquired(t);
    } else if t.lock == Directory(map[]) {
      var r :| r in t.attempts && Remover(t, r);
      RemoverFrees(t, r);
    } else if OwnerFile(m) in files {
      if t.attempts[m].identity.Known? {
        RecordCanGo(t, m);
      } else {
        ReleaseFrees(t, m);
      }
    } else if exists n | n in t.attempts :: Unlinks(t, n, m) && (!t.windows || SomeRemover(t)) {
      var n :| n in t.attempts && Unlinks(t, n, m) && (!t.windows || SomeRemover(t));
      SweepFrees(t, n, m);
    } else {
      var n :| n in t.attempts && Probes(t, n, m);
      ProbeFrees(t, n, m);
    }
  }

  // ----- it can never be acquired -----

  /** The record of an exited owner whose identity nobody can compare with. */
  predicate StuckRecord(t: State, m: Nonce)
    requires m in t.attempts
  {
    OwnerFile(m) in Files(t.lock) && t.attempts[m].identity.Unknown? && !Live(t, m)
  }

  predicate OnlyTemp(t: State, m: Nonce)
    requires m in t.attempts
  {
    t.lock.Directory? && t.lock.entries.Keys == {TempFile(m)} && !Live(t, m)
  }

  /** An orphaned temp file that nobody is about to unlink. */
  predicate StuckTemp(t: State, m: Nonce)
    requires m in t.attempts
  {
    OnlyTemp(t, m) && forall n | n in t.attempts :: !Unlinks(t, n, m) && !Probes(t, n, m)
  }

  /** A directory that rename refuses and nobody is about to remove. */
  predicate StuckDirectory(t: State, m: Nonce)
    requires m in t.attempts
  {
    t.windows && (t.lock == Directory(map[]) || OnlyTemp(t, m)) && forall r | r in t.attempts :: !Remover(t, r)
  }

  /** Whoever would remove the directory keeps the owner looking alive. */
  predicate StuckSquatted(t: State, m: Nonce)
    requires m in t.attempts
  {
    && t.windows
    && OnlyTemp(t, m)
    && forall n | n in t.attempts :: !Unlinks(t, n, m) && (Remover(t, n) ==> Squats(t, t.attempts[n].proc, m))
  }

  predicate Stuck(t: State, m: Nonce) {
    m in t.attempts && (StuckRecord(t, m) || StuckTemp(t, m) || StuckDirectory(t, m) || StuckSquatted(t, m))
  }

  /** What one call may do on a directory without a record. */
  predicate Idles(v: View, o: DirectoryLock.Outcome, w: View, m: Nonce) {
    && (w.lock == v.lock || (v.me.phase == Inspecting(UnlinkTemp(m)) && w.lock == Directory(map[])))
    && (Removes(w.me) ==> Removes(v.me))
    && !(w.me.phase.Inspecting? && w.me.phase.inspection.Probe?)
    && (w.me.phase == Inspecting(UnlinkTemp(m)) ==>
          && o.Proceed?
          && v.me.phase.Inspecting?
          && v.me.phase.inspection.Probe?
          && v.me.phase.inspection.target == m
          && v.me.phase.inspection.temporary)
  }

  predicate NoRecord(windows: bool, n: Nonce, v: View, m: Nonce) {
    && v.lock.Directory?
    && v.lock.entries.Keys <= {TempFile(m)}
    && if v.lock.entries == map[] then windows && !Removes(v.me) else n != m
  }

  lemma IdleInspection(windows: bool, n: Nonce, v: View, o: DirectoryLock.Outcome, m: Nonce)
    requires v.me.phase.Inspecting? && NoRecord(windows, n, v, m)
    ensures Idles(v, o, InspectStep(v, v.me.phase.inspection, o), m)
  {
    if v.me.phase == Inspecting(UnlinkTemp(m)) {
      assert v.lock.entries - {TempFile(m)} == map[];
    }
    if v.me.phase == Inspecting(List) {
      NothingListed(v.lock.entries, m);
    }
  }

  lemma IdleRelease(windows: bool, n: Nonce, v: View, o: DirectoryLock.Outcome, m: Nonce)
    requires AttemptOk(n, v.me, v.lock, true) && v.me.phase.Releasing? && NoRecord(windows, n, v, m)
    ensures Idles(v, o, ReleaseStep(n, v, v.me.phase.release, o), m)
  {
  }

  lemma IdleAcquisition(windows: bool, n: Nonce, v: View, o: DirectoryLock.Outcome, m: Nonce)
    requires !v.me.phase.Inspecting? && !v.me.phase.Releasing? && NoRecord(windows, n, v, m) && !Removes(v.me)
    ensures Idles(v, o, AcquireStep(windows, n, v, o), m)
  {
  }

  /** One call on a directory without a record. */
  lemma IdleCall(windows: bool, n: Nonce, v: View, o: DirectoryLock.Outcome, m: Nonce)
    requires AttemptOk(n, v.me, v.lock, true) && NoRecord(windows, n, v, m)
    ensures Idles(v, o, MyStep(windows, n, v, o), m)
  {
    hide InspectStep, ReleaseStep, AcquireStep, NoRecord;
    match v.me.phase
    case Inspecting(_) => IdleInspection(windows, n, v, o, m);
    case Releasing(_) => IdleRelease(windows, n, v, o, m);
    case Running =>
    case Parked =>
    case _ => IdleAcquisition(windows, n, v, o, m);
  }

  /** What a step leaves of everybody else, seen from the owner that is gone. */
  lemma OthersStay(t: State, a: Action, m: Nonce, q: Nonce)
    requires Inv(t) && Enabled(t, a) && m in t.attempts && q in Next(t, a).attempts
    requires !a.Act? || a.nonce != q
    ensures var u := Next(t, a);
            && m in u.attempts
            && (Unlinks(u, q, m) ==> Unlinks(t, q, m))
            && (Probes(u, q, m) ==> Probes(t, q, m))
            && (Remover(u, q) ==> Remover(t, q))
            && (!Live(t, m) ==> !Live(u, m))
            && (Remover(u, q) && Squats(t, t.attempts[q].proc, m) ==> Squats(u, u.attempts[q].proc, m))
  {
    assert Good(t, m);
    if q in t.attempts {
      assert Good(t, q);
    }
    if a.Act? {
      MyStepSameCall(t.windows, a.nonce, View(t.attempts[a.nonce], t.lock), a.outcome);
    }
    hide MyStep, AttemptOk, KnowledgeOk;
  }

  lemma ProbedIsDead(t: State, n: Nonce, m: Nonce)
    requires Inv(t) && Enabled(t, Act(n, Proceed)) && m in t.attempts
    requires var phase := t.attempts[n].phase;
             phase.Inspecting? && phase.inspection.Probe? && phase.inspection.target == m
    ensures forall p | p in t.processes :: !Squats(t, p, m)
  {
    assert Good(t, n);
  }

  lemma TempStays(t: State, n: Nonce, o: DirectoryLock.Outcome, m: Nonce)
    requires Inv(t) && Enabled(t, Act(n, o)) && m in t.attempts && StuckTemp(t, m)
    ensures m in Next(t, Act(n, o)).attempts && StuckTemp(Next(t, Act(n, o)), m)
  {
    var a := Act(n, o);
    var u := Next(t, a);
    assert Good(t, n);
    IdleCall(t.windows, n, View(t.attempts[n], t.lock), o, m);
    if Unlinks(u, n, m) {
      ProbedIsDead(t, n, m);
      assert false;
    }
    hide Inv, Good, MyStep;
    forall q | q in u.attempts
      ensures !Unlinks(u, q, m) && !Probes(u, q, m)
    {
      if q != n {
        OthersStay(t, a, m, q);
      }
    }
  }

  lemma DirectoryStays(t: State, n: Nonce, o: DirectoryLock.Outcome, m: Nonce)
    requires Inv(t) && Enabled(t, Act(n, o)) && m in t.attempts && StuckDirectory(t, m)
    ensures m in Next(t, Act(n, o)).attempts && StuckDirectory(Next(t, Act(n, o)), m)
  {
    var a := Act(n, o);
    var u := Next(t, a);
    assert Good(t, n);
    IdleCall(t.windows, n, View(t.attempts[n], t.lock), o, m);
    hide Inv, Good, MyStep;
    forall q | q in u.attempts
      ensures !Remover(u, q)
    {
      if q != n {
        OthersStay(t, a, m, q);
      }
    }
  }

  lemma SquattedStays(t: State, n: Nonce, o: DirectoryLock.Outcome, m: Nonce)
    requires Inv(t) && Enabled(t, Act(n, o)) && m in t.attempts && StuckSquatted(t, m)
    ensures m in Next(t, Act(n, o)).attempts
    ensures StuckSquatted(Next(t, Act(n, o)), m) || StuckDirectory(Next(t, Act(n, o)), m)
  {
    var a := Act(n, o);
    var u := Next(t, a);
    assert Good(t, n);
    IdleCall(t.windows, n, View(t.attempts[n], t.lock), o, m);
    MyStepSameCall(t.windows, n, View(t.attempts[n], t.lock), o);
    assert forall q | q in t.attempts :: t.attempts[q].proc in t.processes by {
      forall q | q in t.attempts
        ensures t.attempts[q].proc in t.processes
      {
        assert Good(t, q);
      }
    }
    if Unlinks(u, n, m) {
      ProbedIsDead(t, n, m);
    }
    hide Inv, Good, MyStep;
    forall q | q in u.attempts && q != n
      ensures !Unlinks(u, q, m)
      ensures Remover(u, q) ==> Remover(t, q) && Squats(u, u.attempts[q].proc, m)
    {
      OthersStay(t, a, m, q);
    }
  }

  lemma OtherActionStays(t: State, a: Action, m: Nonce)
    requires Inv(t) && Enabled(t, a) && !a.Act? && Stuck(t, m)
    ensures Stuck(Next(t, a), m)
  {
    var u := Next(t, a);
    hide Inv, Good;
    forall q | q in u.attempts
      ensures m in u.attempts && (!Live(t, m) ==> !Live(u, m))
      ensures Unlinks(u, q, m) ==> Unlinks(t, q, m)
      ensures Probes(u, q, m) ==> Probes(t, q, m)
      ensures Remover(u, q) ==> Remover(t, q)
      ensures Remover(u, q) && Squats(t, t.attempts[q].proc, m) ==> Squats(u, u.attempts[q].proc, m)
    {
      if a.StatEntry? && a.nonce == q {
        StattingStays(t, a, m);
      } else {
        OthersStay(t, a, m, q);
      }
    }
  }

  lemma StattingStays(t: State, a: Action, m: Nonce)
    requires Enabled(t, a) && a.StatEntry? && m in t.attempts
    ensures var u := Next(t, a);
            m in u.attempts && (!Live(t, m) ==> !Live(u, m)) &&
            !Unlinks(u, a.nonce, m) && !Probes(u, a.nonce, m) && !Remover(u, a.nonce)
  {
  }

  lemma RecordStays(t: State, a: Action, m: Nonce)
    requires Inv(t) && Enabled(t, a) && m in t.attempts && StuckRecord(t, m)
    ensures m in Next(t, a).attempts && StuckRecord(Next(t, a), m)
  {
    StepKeepsInv(t, a);
    assert Good(t, m);
    if OwnerFile(m) !in Files(Next(t, a).lock) {
      RemovalIsBound(t, a, m);
      assert false;
    }
    hide Inv, MyStep, AttemptOk, KnowledgeOk;
  }

  lemma StuckStep(t: State, a: Action, m: Nonce)
    requires Inv(t) && Enabled(t, a) && Stuck(t, m)
    ensures Stuck(Next(t, a), m)
  {
    hide Inv, Next, Enabled, StuckRecord, StuckTemp, StuckDirectory, StuckSquatted;
    if StuckRecord(t, m) {
      RecordStays(t, a, m);
    } else if !a.Act? {
      OtherActionStays(t, a, m);
    } else if StuckTemp(t, m) {
      TempStays(t, a.nonce, a.outcome, m);
    } else if StuckDirectory(t, m) {
      DirectoryStays(t, a.nonce, a.outcome, m);
    } else {
      SquattedStays(t, a.nonce, a.outcome, m);
    }
    StuckKnows(Next(t, a), m);
  }

  lemma StuckKnows(t: State, m: Nonce)
    requires m in t.attempts
    requires StuckRecord(t, m) || StuckTemp(t, m) || StuckDirectory(t, m) || StuckSquatted(t, m)
    ensures Stuck(t, m)
  {
  }

  lemma NobodyRuns(t: State, m: Nonce, n: Nonce)
    requires Inv(t) && Stuck(t, m)
    ensures !IsRunning(t, n)
  {
    if Live(t, n) {
      assert Good(t, n);
    }
  }

  lemma {:induction false} StuckForever(t: State, m: Nonce, run: seq<Action>, n: Nonce)
    requires Inv(t) && Stuck(t, m) && Possible(t, run)
    ensures !IsRunning(After(t, run), n)
    decreases |run|
  {
    if run == [] {
      NobodyRuns(t, m, n);
    } else {
      StepKeepsInv(t, run[0]);
      StuckStep(t, run[0], m);
      StuckForever(Next(t, run[0]), m, run[1..], n);
    }
  }

  lemma NothingGoes(t: State, m: Nonce)
    requires Inv(t) && Gone(t, m) && !Reacquirable(t, m)
    ensures Stuck(t, m)
  {
    assert Good(t, m);
    hide KnowledgeOk;
    if OwnerFile(m) !in Files(t.lock) && TempFile(m) in Files(t.lock) {
      assert Files(t.lock).Keys == {TempFile(m)};
      SweepersMissing(t, m);
    }
  }

  lemma SweepersMissing(t: State, m: Nonce)
    requires m in t.attempts && OnlyTemp(t, m) && !Sweepable(t, m)
    ensures StuckTemp(t, m) || StuckDirectory(t, m) || StuckSquatted(t, m)
  {
    hide Unlinks, Probes, Remover, Squats;
    if !StuckTemp(t, m) && !StuckDirectory(t, m) {
      var n :| n in t.attempts && (Unlinks(t, n, m) || Probes(t, n, m));
      if t.windows {
        var r :| r in t.attempts && Remover(t, r);
      }
    }
  }

  // ----- both together -----

  /** Over anything a released or exited owner can leave, and whatever others are in the middle of:
      the path can be acquired again exactly when it is free; or the owner's record is there and its
      identity can be compared, or it still runs; or the directory is empty and rename replaces it or
      somebody is about to remove it; or a sweep already due empties it so. */
  lemma AcquirableIffReacquirable(t: State, m: Nonce)
    requires Reachable(t) && Gone(t, m)
    ensures CanBeAcquired(t) <==> Reacquirable(t, m)
  {
    ReachableInv(t);
    hide Inv;
    if Reacquirable(t, m) {
      CanGo(t, m);
    } else {
      NothingGoes(t, m);
      forall run, n | Possible(t, run)
        ensures !IsRunning(After(t, run), n)
      {
        StuckForever(t, m, run, n);
      }
    }
  }

  /** With nobody in the middle of a removal: a free path, a comparable record, or an empty directory
      under the rename that replaces it; nothing else. */
  lemma AcquirableAtRest(t: State, m: Nonce)
    requires Reachable(t) && Gone(t, m) && !Live(t, m)
    requires forall n | n in t.attempts :: !Remover(t, n) && !Unlinks(t, n, m) && !Probes(t, n, m)
    ensures CanBeAcquired(t) <==>
              || t.lock.Missing?
              || (OwnerFile(m) in Files(t.lock) && t.attempts[m].identity.Known?)
              || (t.lock == Directory(map[]) && !t.windows)
  {
    AcquirableIffReacquirable(t, m);
  }

  // ----- the empty directory that stays -----

  /** One process owns the lock, another is alive beside it. */
  function Solo(alive: bool, me: Attempt, lock: Node): State {
    State(true, lock, map[0 := Process(10, 7, alive), 1 := Process(11, 7, true)], map[0 := me], {})
  }

  lemma SoloActs(me: Attempt, me': Attempt, lock: Node, lock': Node)
    requires Reachable(Solo(true, me, lock)) && me.proc == 0
    requires !me.phase.Inspecting? && !me.phase.Failed? && !me.phase.Done?
    requires MyStep(true, 0, View(me, lock), Proceed) == View(me', lock')
    ensures Reachable(Solo(true, me', lock'))
  {
    hide MyStep, Reachable;
    var t, u := Solo(true, me, lock), Solo(true, me', lock');
    assert Next(t, Act(0, Proceed)).attempts == u.attempts;
    Reach(t, Act(0, Proceed), u);
  }

  lemma SoloRuns()
    ensures Reachable(Solo(true, Part(0, Running, NoDir), Directory(Record(0))))
  {
    hide Reachable;
    SoloWrites();
    var full := Dir(Record(0));
    SoloActs(Part(0, Checking, full), Part(0, Renaming, full), Missing, Missing);
    SoloActs(Part(0, Renaming, full), Part(0, Running, NoDir), Missing, Directory(Record(0)));
  }

  lemma SoloWrites()
    ensures Reachable(Solo(true, Part(0, Checking, Dir(Record(0))), Missing))
  {
    hide Reachable;
    var u := Solo(true, Part(0, Preparing, NoDir), Missing);
    SoloBegins(u.(attempts := map[]), u);
    var part := Dir(map[OwnerFile(0) := Partial]);
    SoloActs(Part(0, Preparing, NoDir), Part(0, Creating, Dir(map[])), Missing, Missing);
    SoloActs(Part(0, Creating, Dir(map[])), Part(0, Writing, part), Missing, Missing);
    SoloActs(Part(0, Writing, part), Part(0, Checking, Dir(Record(0))), Missing, Missing);
  }

  lemma SoloBegins(s: State, u: State)
    requires u == Solo(true, Part(0, Preparing, NoDir), Missing) && s == u.(attempts := map[])
    ensures Reachable(u)
  {
    assert Init(s) && Possible(s, []) && After(s, []) == s;
    Reach(s, Begin(0, 0, Known(7)), u);
  }

  lemma SoloPublishes()
    ensures Reachable(Solo(true, Part(0, Releasing(UnlinkOwn), NoDir).(published := true), Directory(ReleasedRecord())))
  {
    hide Reachable;
    SoloRuns();
    var d, released := Record(0), Complete(Owner(10, Known(7), 0, true));
    var half, full := d[TempFile(0) := Partial], d[TempFile(0) := released];
    assert OwnerFile(0) in d;
    SoloActs(Part(0, Running, NoDir), Part(0, Releasing(ReadOwn), NoDir), Directory(d), Directory(d));
    SoloActs(Part(0, Releasing(ReadOwn), NoDir), Part(0, Releasing(CreateTemp), NoDir), Directory(d), Directory(d));
    SoloActs(Part(0, Releasing(CreateTemp), NoDir), Part(0, Releasing(WriteTemp), NoDir),
             Directory(d), Directory(half));
    assert half[TempFile(0) := released] == full;
    SoloActs(Part(0, Releasing(WriteTemp), NoDir), Part(0, Releasing(Replace), NoDir),
             Directory(half), Directory(full));
    assert (full - {TempFile(0)})[OwnerFile(0) := released] == ReleasedRecord();
    SoloActs(Part(0, Releasing(Replace), NoDir), Part(0, Releasing(UnlinkOwn), NoDir).(published := true),
             Directory(full), Directory(ReleasedRecord()));
  }

  function ReleasedRecord(): Dir {
    map[OwnerFile(0) := Complete(Owner(10, Known(7), 0, true))]
  }

  /** Where rename refuses any target, an owner that exits between its unlink and its rmdir leaves an
      empty directory that no run frees. */
  lemma EmptyIsReachable()
    ensures exists t ::
              Reachable(t) && t.windows && t.lock == Directory(map[]) && Gone(t, 0) && Alive(t, 1) && !CanBeAcquired(t)
  {
    hide Reachable, CanBeAcquired;
    SoloPublishes();
    var published := Part(0, Releasing(UnlinkOwn), NoDir).(published := true);
    var last := published.(phase := Releasing(RmdirOwn), unlinked := true);
    assert ReleasedRecord() - {OwnerFile(0)} == map[];
    SoloActs(published, last, Directory(ReleasedRecord()), Directory(map[]));
    SoloExits(last, Directory(map[]));
    var t := Solo(false, last, Directory(map[]));
    AcquirableIffReacquirable(t, 0);
    assert Gone(t, 0) && Alive(t, 1) && !CanBeAcquired(t);
  }

  lemma SoloExits(me: Attempt, lock: Node)
    requires Reachable(Solo(true, me, lock))
    ensures Reachable(Solo(false, me, lock))
  {
    var t, u := Solo(true, me, lock), Solo(false, me, lock);
    assert Next(t, Crash(0)).processes == u.processes;
    Reach(t, Crash(0), u);
  }
}

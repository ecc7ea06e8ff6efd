/** When an inspection gives the canonical path back, and when it cannot.

    Recovery depends on the moment of the directory listing: the listing decides whether the owner's
    temp file is removed with its record. */
module LockRecovery {
  import opened DirectoryLock

  /** The inspector may remove the record of `m`: same known realm, and released on disk or with a
      PID nobody has. */
  predicate Reclaimable(s: State, n: Nonce, m: Nonce) {
    && Live(s, n) && m in s.attempts
    && SameIdentity(s.attempts[m].identity, s.attempts[n].identity)
    && (s.attempts[m].published || NobodyHas(s, s.attempts[n].identity, s.attempts[m].pid))
  }

  /** Does this inspection still remove the temp file of its target? */
  predicate SweepsTemp(i: Inspection) {
    match i
    case Lstat => true
    case List => true
    case StatEntries(_, temporary, _) => temporary
    case ReadRecord(_, temporary) => temporary
    case Probe(_, temporary, _) => temporary
    case UnlinkTemp(_) => true
    case UnlinkOwner(_) => false
    case Rmdir => false
  }

  /** Is the next call of this inspection, or the one after a dead verdict, the unlink of the temp
      file? */
  predicate IsSweeping(i: Inspection) {
    i.UnlinkTemp? || (i.Probe? && i.temporary)
  }

  /** An inspection of `m`, or one that has not chosen a target yet. */
  predicate Aims(i: Inspection, m: Nonce) {
    match i
    case Lstat => true
    case List => true
    case StatEntries(t, _, left) => t == m && left <= {OwnerFile(m), TempFile(m)}
    case ReadRecord(t, _) => t == m
    case Probe(t, _, _) => t == m
    case UnlinkTemp(t) => t == m
    case UnlinkOwner(t) => t == m
    case Rmdir => true
  }

  /** All that an owner can leave on the path: nothing, or a directory with some of its two files. */
  predicate Leavings(m: Nonce, lock: Node) {
    lock.Missing? || (lock.Directory? && lock.entries.Keys <= {OwnerFile(m), TempFile(m)})
  }

  predicate Inspects(s: State, n: Nonce, m: Nonce) {
    && Inv(s) && Reclaimable(s, n, m) && n != m
    && Leavings(m, s.lock)
    && s.attempts[n].phase.Inspecting?
    && Aims(s.attempts[n].phase.inspection, m)
    && (s.attempts[n].phase.inspection.Probe? ==> NobodyHas(s, s.attempts[n].identity, s.attempts[m].pid))
  }

  function Stage(i: Inspection): nat {
    match i
    case Lstat => 7
    case List => 6
    case StatEntries(_, _, _) => 5
    case ReadRecord(_, _) => 4
    case Probe(_, _, _) => 3
    case UnlinkTemp(_) => 2
    case UnlinkOwner(_) => 1
    case Rmdir => 0
  }

  function Left(i: Inspection): set<Name> {
    if i.StatEntries? then i.left else {}
  }

  /** What the path comes to.  With the owner's record there it is gone, or holds an orphaned temp
      file alone; without the record only the calls that were already due still happen. */
  function Remainder(i: Inspection, m: Nonce, lock: Node): Node {
    if i.Rmdir? then Removed(lock)
    else if i.StatEntries? && !(i.left <= Files(lock).Keys) then lock
    else if OwnerFile(m) !in Files(lock) then if IsSweeping(i) then Unlinked(lock, TempFile(m)) else lock
    else if TempFile(m) in Files(lock) && !SweepsTemp(i) then
      Directory(map[TempFile(m) := Files(lock)[TempFile(m)]])
    else Missing
  }

  /** A call of an inspection that meets no fault: the lstat of any entry still listed, or else the
      call that is due, not refused. */
  predicate FaultFree(s: State, n: Nonce, a: Action) {
    && n in s.attempts
    && s.attempts[n].phase.Inspecting?
    && var i := s.attempts[n].phase.inspection;
       if i.StatEntries? && i.left != {} then a.StatEntry? && a.nonce == n && a.name in i.left
       else a == Act(n, Proceed)
  }

  /** Every action is such a call; so the run stops at the latest when the inspection is over. */
  ghost predicate FaultFreeRun(s: State, n: Nonce, run: seq<Action>)
    requires Possible(s, run)
    decreases |run|
  {
    run == [] || (FaultFree(s, n, run[0]) && FaultFreeRun(Next(s, run[0]), n, run[1..]))
  }

  predicate IsOver(t: State, n: Nonce) {
    n in t.attempts && !t.attempts[n].phase.Inspecting?
  }

  /** One owner file, and nothing beside it but its own temp file. */
  predicate OneOwner(d: Dir, t: Nonce) {
    OwnerFile(t) in d && forall name | name in d :: name == OwnerFile(t) || name == TempFile(t)
  }

  /** What an inspection may act on.  A listing goes on only with a single owner, and only once every entry
      of it was found a regular file; a record, only when it is complete, of that owner, and of the
      inspector's own known identity: then a released one is cleaned up and any other is probed first.
      Everything else is left as it is. */
  lemma InspectionTells(v: View, i: Inspection)
    requires v.me.phase == Inspecting(i)
    ensures i.List? && v.lock.Directory? ==>
              var w := InspectStep(v, i, Proceed);
              && w.lock == v.lock
              && (w.me.phase.Inspecting? <==> exists t :: OneOwner(v.lock.entries, t))
              && forall t | OneOwner(v.lock.entries, t) ::
                   w.me.phase ==
                   Inspecting(StatEntries(t, TempFile(t) in v.lock.entries, v.lock.entries.Keys))
    ensures i.StatEntries? ==>
              && (InspectStep(v, i, Proceed).me.phase ==
                  if i.left == {} then Inspecting(ReadRecord(i.target, i.temporary)) else Checking)
              && forall name ::
                   StatStep(v, i, name).me.phase ==
                   if name in Files(v.lock) && (Files(v.lock)[name].Complete? || Files(v.lock)[name].Partial?)
                   then Inspecting(i.(left := i.left - {name})) else Checking
    ensures i.ReadRecord? && OwnerFile(i.target) in Files(v.lock) ==>
              var w, f := InspectStep(v, i, Proceed), Files(v.lock)[OwnerFile(i.target)];
              && w.lock == v.lock
              && (w.me.phase.Inspecting? <==>
                    && f.Complete? && f.owner.nonce == i.target
                    && f.owner.identity.Known? && v.me.identity.Known?
                    && f.owner.identity.realm == v.me.identity.realm)
              && (w.me.phase.Inspecting? ==>
                    w.me.phase.inspection ==
                    if !f.owner.released then Probe(i.target, i.temporary, f.owner.pid)
                    else if i.temporary then UnlinkTemp(i.target)
                    else UnlinkOwner(i.target))
  {
    if i.List? && v.lock.Directory? {
      var d := v.lock.entries;
      forall t
        ensures Listed(d, t) <==> OneOwner(d, t)
      {
        ListedIs(d, t);
      }
      forall t, u | OneOwner(d, t) && OneOwner(d, u)
        ensures t == u
      {
        assert OwnerFile(u) in d;
      }
    }
    hide Listed;
  }

  lemma ListedIs(d: Dir, t: Nonce)
    ensures Listed(d, t) <==> OneOwner(d, t)
  {
    if Listed(d, t) {
      assert OwnerFile(t) in OwnersIn(d);
    }
    if OneOwner(d, t) {
      assert OwnersIn(d) == {OwnerFile(t)};
    }
  }

  lemma ListingIsUnique(d: Dir, m: Nonce)
    requires OwnerFile(m) in d && d.Keys <= {OwnerFile(m), TempFile(m)}
    ensures Listed(d, m) && forall t | Listed(d, t) :: t == m
  {
    assert OwnersIn(d) == {OwnerFile(m)};
  }

  /** An upper bound on the calls an inspection still makes. */
  function Calls(i: Inspection): nat {
    3 * Stage(i) + |Left(i)| + 1
  }

  /** Each call brings the inspection closer to its end and does not change where it ends. */
  predicate Advances(i: Inspection, lock: Node, w: View, m: Nonce) {
    Leavings(m, w.lock)
    && if w.me.phase.Inspecting? then
      var j := w.me.phase.inspection;
      && Aims(j, m)
      && (Stage(j) < Stage(i) || (Stage(j) == Stage(i) && Left(j) < Left(i)))
      && Remainder(j, m, w.lock) == Remainder(i, m, lock)
    else w.me.phase.Checking? && w.lock == Remainder(i, m, lock)
  }

  predicate RecordFits(v: View, m: Nonce) {
    OwnerFile(m) in Files(v.lock) ==>
      var f := Files(v.lock)[OwnerFile(m)];
      f.Complete? && f.owner.nonce == m && SameIdentity(f.owner.identity, v.me.identity)
  }

  lemma CallAdvances(v: View, i: Inspection, m: Nonce)
    requires Leavings(m, v.lock) && Aims(i, m) && (i.StatEntries? ==> i.left == {}) && RecordFits(v, m)
    ensures Advances(i, v.lock, InspectStep(v, i, Proceed), m)
  {
    if i.List? && v.lock.Directory? {
      if OwnerFile(m) in v.lock.entries {
        ListingIsUnique(v.lock.entries, m);
      } else {
        NothingListed(v.lock.entries, m);
      }
    }
    if i.UnlinkOwner? && OwnerFile(m) in Files(v.lock) {
      var rest := v.lock.entries - {OwnerFile(m)};
      if TempFile(m) in v.lock.entries {
        assert TempFile(m) in rest;
        assert rest == map[TempFile(m) := v.lock.entries[TempFile(m)]];
      } else {
        assert rest == map[];
      }
    }
  }

  lemma NothingListed(d: Dir, m: Nonce)
    requires d.Keys <= {TempFile(m)}
    ensures forall t :: !Listed(d, t)
  {
    forall t
      ensures !Listed(d, t)
    {
      assert OwnerFile(t) !in OwnersIn(d);
    }
  }

  lemma StatAdvances(v: View, i: Inspection, m: Nonce, name: Name)
    requires Leavings(m, v.lock) && Aims(i, m) && i.StatEntries? && name in i.left
    requires name in Files(v.lock) ==> !Files(v.lock)[name].NotRegular?
    ensures Advances(i, v.lock, StatStep(v, i, name), m)
  {
  }

  lemma CallIsEnabled(s: State, n: Nonce, m: Nonce, a: Action)
    requires Inspects(s, n, m) && FaultFree(s, n, a)
    ensures Enabled(s, a)
  {
    assert Good(s, m) && Good(s, n);
    hide AttemptOk;
  }

  lemma OneCallAdvances(s: State, n: Nonce, m: Nonce, a: Action)
    requires Inspects(s, n, m) && FaultFree(s, n, a) && Enabled(s, a)
    ensures var t := Next(s, a);
            && Live(t, n)
            && SameCall(s.attempts[n], t.attempts[n])
            && Advances(s.attempts[n].phase.inspection, s.lock, View(t.attempts[n], t.lock), m)
  {
    var v := View(s.attempts[n], s.lock);
    var i := v.me.phase.inspection;
    assert Good(s, m) && Good(s, n);
    if a.Act? {
      CallAdvances(v, i, m);
      InspectSameCall(v, i, Proceed);
    } else {
      StatAdvances(v, i, m, a.name);
    }
    hide InspectStep, Advances, AttemptOk, KnowledgeOk;
  }

  /** A probe is reached only for a record that is not released; the owner has then exited. */
  lemma ProbeIsDead(s: State, n: Nonce, m: Nonce, a: Action)
    requires Inspects(s, n, m) && FaultFree(s, n, a) && Enabled(s, a)
    ensures var t := Next(s, a);
            n in t.attempts && t.attempts[n].phase.Inspecting? && t.attempts[n].phase.inspection.Probe? ==>
              NobodyHas(t, t.attempts[n].identity, s.attempts[m].pid)
  {
    assert Good(s, m) && Good(s, n);
  }

  lemma InspectionAdvances(s: State, n: Nonce, m: Nonce, a: Action)
    requires Inspects(s, n, m) && FaultFree(s, n, a) && Enabled(s, a)
    ensures var t := Next(s, a);
            && Inv(t)
            && Live(t, n)
            && (t.attempts[n].phase.Inspecting? ==> Inspects(t, n, m))
            && Advances(s.attempts[n].phase.inspection, s.lock, View(t.attempts[n], t.lock), m)
  {
    OneCallAdvances(s, n, m, a);
    StepKeepsInv(s, a);
    ProbeIsDead(s, n, m, a);
    hide Inv, MyStep, StatStep, Stage, Left, Remainder;
  }

  lemma Smaller<T>(a: set<T>, b: set<T>)
    ensures a <= b ==> |a| <= |b|
    ensures a < b ==> |a| < |b|
  {
    if a <= b {
      var rest := b - a;
      assert b == a + rest;
      assert |b| == |a| + |rest|;
    }
  }

  lemma FewerCalls(i: Inspection, lock: Node, w: View, m: Nonce)
    requires Aims(i, m) && Advances(i, lock, w, m) && w.me.phase.Inspecting?
    ensures Calls(w.me.phase.inspection) < Calls(i)
  {
    var j := w.me.phase.inspection;
    Smaller(Left(j), Left(i));
    Smaller(Left(j), {OwnerFile(m), TempFile(m)});
    hide Remainder, Leavings;
  }

  /** However an inspection goes on without a fault, it makes a bounded number of calls; as long as it
      is not over there is a next one; and once it is over the path is what was already decided. */
  lemma {:induction false} EveryInspectionEnds(s: State, n: Nonce, m: Nonce, run: seq<Action>)
    requires Inspects(s, n, m) && Possible(s, run) && FaultFreeRun(s, n, run)
    ensures |run| <= Calls(s.attempts[n].phase.inspection)
    ensures var t := After(s, run);
            && Live(t, n)
            && if IsOver(t, n) then
                 t.attempts[n].phase.Checking? && t.lock == Remainder(s.attempts[n].phase.inspection, m, s.lock)
               else
                 Inspects(t, n, m) && exists a :: FaultFree(t, n, a) && Enabled(t, a)
    decreases |run|
  {
    if run == [] {
      var a := SomeCall(s, n);
      CallIsEnabled(s, n, m, a);
    } else {
      var t := Next(s, run[0]);
      InspectionAdvances(s, n, m, run[0]);
      hide Inspects, Inv, FaultFree, Next, Enabled, Remainder;
      if IsOver(t, n) {
        OverIsOver(t, n, run[1..]);
      } else {
        FewerCallsThen(s, n, m, t);
        EveryInspectionEnds(t, n, m, run[1..]);
      }
    }
  }

  lemma FewerCallsThen(s: State, n: Nonce, m: Nonce, t: State)
    requires Inspects(s, n, m) && n in t.attempts && t.attempts[n].phase.Inspecting?
    requires Advances(s.attempts[n].phase.inspection, s.lock, View(t.attempts[n], t.lock), m)
    ensures Calls(t.attempts[n].phase.inspection) < Calls(s.attempts[n].phase.inspection)
    ensures Remainder(t.attempts[n].phase.inspection, m, t.lock) == Remainder(s.attempts[n].phase.inspection, m, s.lock)
  {
    FewerCalls(s.attempts[n].phase.inspection, s.lock, View(t.attempts[n], t.lock), m);
  }

  lemma OverIsOver(t: State, n: Nonce, run: seq<Action>)
    requires IsOver(t, n) && Possible(t, run) && FaultFreeRun(t, n, run)
    ensures run == []
  {
  }

  lemma SomeCall(s: State, n: Nonce) returns (a: Action)
    requires n in s.attempts && s.attempts[n].phase.Inspecting?
    ensures FaultFree(s, n, a)
  {
    var i := s.attempts[n].phase.inspection;
    if i.StatEntries? && i.left != {} {
      var name :| name in i.left;
      a := StatEntry(n, name);
    } else {
      a := Act(n, Proceed);
    }
  }

  /** And it can go on to its end. */
  lemma InspectionRun(s: State, n: Nonce, m: Nonce) returns (run: seq<Action>)
    requires Inspects(s, n, m)
    ensures Possible(s, run) && FaultFreeRun(s, n, run) && Live(After(s, run), n)
    ensures After(s, run).attempts[n].phase.Checking?
    ensures After(s, run).lock == Remainder(s.attempts[n].phase.inspection, m, s.lock)
    decreases Calls(s.attempts[n].phase.inspection)
  {
    var a := SomeCall(s, n);
    CallIsEnabled(s, n, m, a);
    InspectionAdvances(s, n, m, a);
    var t := Next(s, a);
    hide Inspects, Inv, FaultFree, Next, Enabled, Remainder;
    if t.attempts[n].phase.Inspecting? {
      FewerCallsThen(s, n, m, t);
      var rest := InspectionRun(t, n, m);
      run := [a] + rest;
      PossibleCons(s, a, rest);
    } else {
      run := [a];
      PossibleCons(s, a, []);
      assert [a] + [] == run;
    }
  }

  /** However an inspection under way goes on without a fault, over anything a released or exited
      owner can leave: when it is over the path is free exactly when it was free, or its removal was
      due and it was empty, or the owner's record was there and a temp file beside it was in the
      listing, and all that was listed was still there. */
  lemma RecoversIffListed(s: State, n: Nonce, m: Nonce, run: seq<Action>)
    requires Inspects(s, n, m) && Possible(s, run) && FaultFreeRun(s, n, run) && IsOver(After(s, run), n)
    ensures var i, files := s.attempts[n].phase.inspection, Files(s.lock);
            After(s, run).lock.Missing? <==>
              || s.lock.Missing?
              || (i.Rmdir? && files == map[])
              || (&& OwnerFile(m) in files
                  && !i.Rmdir?
                  && (i.StatEntries? ==> i.left <= files.Keys)
                  && (TempFile(m) in files ==> SweepsTemp(i)))
  {
    EveryInspectionEnds(s, n, m, run);
  }

  /** However an inspection that begins after the owner released or exited goes on without a fault:
      when it is over the path is free exactly when the owner's record was still there, or it was
      free before; otherwise nothing on it has changed. */
  lemma FreshInspectionRecovers(t: State, n: Nonce, m: Nonce, run: seq<Action>)
    requires Reachable(t) && Reclaimable(t, n, m) && n != m && Leavings(m, t.lock)
    requires t.attempts[n].phase == Inspecting(Lstat)
    requires Possible(t, run) && FaultFreeRun(t, n, run) && IsOver(After(t, run), n)
    ensures After(t, run).lock == if OwnerFile(m) in Files(t.lock) then Missing else t.lock
  {
    ReachableInv(t);
    EveryInspectionEnds(t, n, m, run);
  }

  // ----- the case that never recovers -----

  /** The temp file of an exited owner, alone in the directory, with no inspection left that would
      remove it. */
  ghost predicate Orphaned(s: State, m: Nonce) {
    && m in s.attempts && !Live(s, m)
    && Files(s.lock).Keys == {TempFile(m)}
    && forall n | Live(s, n) && s.attempts[n].phase.Inspecting? ::
         AimsElsewhere(s.attempts[n].phase.inspection, m)
  }

  predicate AimsElsewhere(i: Inspection, m: Nonce) {
    match i
    case StatEntries(t, temporary, _) => t != m || !temporary
    case ReadRecord(t, temporary) => t != m || !temporary
    case Probe(t, temporary, _) => t != m || !temporary
    case UnlinkTemp(t) => t != m
    case _ => true
  }

  lemma NobodySweepsOrphan(windows: bool, n: Nonce, v: View, o: DirectoryLock.Outcome, m: Nonce)
    requires AttemptOk(n, v.me, v.lock, true) && n != m && Files(v.lock).Keys == {TempFile(m)}
    requires v.me.phase.Inspecting? ==> AimsElsewhere(v.me.phase.inspection, m)
    ensures var w := MyStep(windows, n, v, o);
            w.lock == v.lock && (w.me.phase.Inspecting? ==> AimsElsewhere(w.me.phase.inspection, m))
  {
    if v.me.phase.Inspecting? && v.me.phase.inspection.List? {
      forall t
        ensures !Listed(v.lock.entries, t)
      {
        assert OwnerFile(t) !in OwnersIn(v.lock.entries);
      }
    }
  }

  lemma OrphanSurvivesStep(s: State, a: Action, m: Nonce)
    requires Inv(s) && Orphaned(s, m) && Enabled(s, a)
    ensures Orphaned(Next(s, a), m) && Next(s, a).lock == s.lock
  {
    assert Good(s, m);
    if a.Act? {
      assert Good(s, a.nonce);
      NobodySweepsOrphan(s.windows, a.nonce, View(s.attempts[a.nonce], s.lock), a.outcome, m);
    }
    hide Inv, MyStep, AttemptOk, KnowledgeOk, Grows;
  }

  /** An orphan is held for ever: nothing moves it, and no live attempt is in its callback. */
  lemma {:induction false} OrphanIsForever(s: State, run: seq<Action>, m: Nonce, n: Nonce)
    requires Inv(s) && Orphaned(s, m) && Possible(s, run)
    ensures After(s, run).lock == s.lock
    ensures Live(After(s, run), n) ==> !After(s, run).attempts[n].phase.Running?
    decreases |run|
  {
    if run == [] {
      if Live(s, n) {
        assert Good(s, n);
      }
    } else {
      StepKeepsInv(s, run[0]);
      OrphanSurvivesStep(s, run[0], m);
      OrphanIsForever(Next(s, run[0]), run[1..], m, n);
    }
  }

  // ----- how an orphan comes about -----

  function Part(p: nat, phase: Phase, candidate: Candidate): Attempt {
    Attempt(p, 10 + p, Known(7), phase, candidate, false, false, false)
  }

  /** Process 0 owns the lock and process 1, of the same realm, contends for it. */
  function Scene(alive: bool, phase0: Phase, candidate0: Candidate, phase1: Phase, candidate1: Candidate, lock: Node)
    : State
  {
    State(false, lock, map[0 := Process(10, 7, alive), 1 := Process(11, 7, true)],
          map[0 := Part(0, phase0, candidate0), 1 := Part(1, phase1, candidate1)], {})
  }

  function Record(n: Nonce): Dir {
    map[OwnerFile(n) := Complete(Owner(10 + n, Known(7), n, false))]
  }

  lemma Reach(t: State, a: Action, u: State)
    requires Reachable(t) && Enabled(t, a) && Next(t, a) == u
    ensures Reachable(u)
  {
    var s, run :| Init(s) && Possible(s, run) && After(s, run) == t;
    PossibleCons(t, a, []);
    assert [a] + [] == [a];
    PossibleConcat(s, run, [a]);
    assert Possible(s, run + [a]) && After(s, run + [a]) == u;
  }

  /** A call of the owner, given what it does to its own phase and to the path. */
  lemma OwnerActs(phase: Phase, candidate: Candidate, phase': Phase, candidate': Candidate,
                  phase1: Phase, candidate1: Candidate, lock: Node, lock': Node)
    requires Reachable(Scene(true, phase, candidate, phase1, candidate1, lock))
    requires !phase.Inspecting? && !phase.Failed? && !phase.Done?
    requires MyStep(false, 0, View(Part(0, phase, candidate), lock), Proceed) ==
             View(Part(0, phase', candidate'), lock')
    ensures Reachable(Scene(true, phase', candidate', phase1, candidate1, lock'))
  {
    hide Reachable, MyStep;
    var t := Scene(true, phase, candidate, phase1, candidate1, lock);
    var u := Scene(true, phase', candidate', phase1, candidate1, lock');
    assert Enabled(t, Act(0, Proceed));
    assert Next(t, Act(0, Proceed)).attempts == u.attempts;
    assert Next(t, Act(0, Proceed)) == u;
    hide Next, Enabled, Scene;
    Reach(t, Act(0, Proceed), u);
  }

  lemma InspectorActs(alive: bool, phase: Phase, candidate: Candidate, phase': Phase, candidate': Candidate,
                      phase0: Phase, candidate0: Candidate, lock: Node, lock': Node)
    requires Reachable(Scene(alive, phase0, candidate0, phase, candidate, lock))
    requires !phase.Failed? && !phase.Done?
    requires phase.Inspecting? && phase.inspection.Probe? ==> phase.inspection.pid == 10 && !alive
    requires MyStep(false, 1, View(Part(1, phase, candidate), lock), Proceed) ==
             View(Part(1, phase', candidate'), lock')
    ensures Reachable(Scene(alive, phase0, candidate0, phase', candidate', lock'))
  {
    hide Reachable, MyStep;
    var t := Scene(alive, phase0, candidate0, phase, candidate, lock);
    var u := Scene(alive, phase0, candidate0, phase', candidate', lock');
    assert Next(t, Act(1, Proceed)).attempts == u.attempts;
    Reach(t, Act(1, Proceed), u);
  }

  lemma BothBegin()
    ensures Reachable(Scene(true, Preparing, NoDir, Preparing, NoDir, Missing))
  {
    var u := Scene(true, Preparing, NoDir, Preparing, NoDir, Missing);
    var s := u.(attempts := map[]);
    var t := u.(attempts := map[0 := u.attempts[0]]);
    assert Init(s) && Possible(s, []) && After(s, []) == s;
    Reach(s, Begin(0, 0, Known(7)), t);
    assert Next(t, Begin(1, 1, Known(7))).attempts == u.attempts;
    Reach(t, Begin(1, 1, Known(7)), u);
  }

  lemma BothPrepare()
    ensures Reachable(Scene(true, Renaming, Dir(Record(0)), Renaming, Dir(Record(1)), Missing))
  {
    hide Reachable, Scene;
    BothBegin();
    var c0, c1 := Dir(map[OwnerFile(0) := Partial]), Dir(map[OwnerFile(1) := Partial]);
    OwnerActs(Preparing, NoDir, Creating, Dir(map[]), Preparing, NoDir, Missing, Missing);
    OwnerActs(Creating, Dir(map[]), Writing, c0, Preparing, NoDir, Missing, Missing);
    OwnerActs(Writing, c0, Checking, Dir(Record(0)), Preparing, NoDir, Missing, Missing);
    OwnerActs(Checking, Dir(Record(0)), Renaming, Dir(Record(0)), Preparing, NoDir, Missing, Missing);
    InspectorActs(true, Preparing, NoDir, Creating, Dir(map[]), Renaming, Dir(Record(0)), Missing, Missing);
    InspectorActs(true, Creating, Dir(map[]), Writing, c1, Renaming, Dir(Record(0)), Missing, Missing);
    InspectorActs(true, Writing, c1, Checking, Dir(Record(1)), Renaming, Dir(Record(0)), Missing, Missing);
    InspectorActs(true, Checking, Dir(Record(1)), Renaming, Dir(Record(1)), Renaming, Dir(Record(0)), Missing, Missing);
  }

  lemma OwnerFileIsStatted()
    requires Reachable(Scene(true, Running, NoDir, Inspecting(StatEntries(0, false, {OwnerFile(0)})), Dir(Record(1)),
                             Directory(Record(0))))
    ensures Reachable(Scene(true, Running, NoDir, Inspecting(StatEntries(0, false, {})), Dir(Record(1)),
                            Directory(Record(0))))
  {
    hide Reachable;
    var d, c := Directory(Record(0)), Dir(Record(1));
    var t := Scene(true, Running, NoDir, Inspecting(StatEntries(0, false, {OwnerFile(0)})), c, d);
    var u := Scene(true, Running, NoDir, Inspecting(StatEntries(0, false, {})), c, d);
    assert {OwnerFile(0)} - {OwnerFile(0)} == {};
    assert Next(t, StatEntry(1, OwnerFile(0))).attempts == u.attempts;
    Reach(t, StatEntry(1, OwnerFile(0)), u);
  }

  lemma OwnerCrashes(i: Phase, c: Candidate, d: Node)
    requires Reachable(Scene(true, Releasing(WriteTemp), NoDir, i, c, d))
    ensures Reachable(Scene(false, Releasing(WriteTemp), NoDir, i, c, d))
  {
    hide Reachable;
    var t, u := Scene(true, Releasing(WriteTemp), NoDir, i, c, d), Scene(false, Releasing(WriteTemp), NoDir, i, c, d);
    assert Next(t, Crash(0)).processes == u.processes;
    Reach(t, Crash(0), u);
  }

  lemma InspectorLists()
    ensures Reachable(Scene(true, Running, NoDir, Inspecting(List), Dir(Record(1)), Directory(Record(0))))
  {
    hide Reachable, Scene;
    BothPrepare();
    var d, c := Directory(Record(0)), Dir(Record(1));
    OwnerActs(Renaming, Dir(Record(0)), Running, NoDir, Renaming, c, Missing, d);
    assert OwnerFile(0) in Record(0);
    InspectorActs(true, Renaming, c, Inspecting(Lstat), c, Running, NoDir, d, d);
    InspectorActs(true, Inspecting(Lstat), c, Inspecting(List), c, Running, NoDir, d, d);
  }

  /** The inspector has listed the directory before the owner opens its temp file. */
  lemma ListingComesFirst()
    ensures Reachable(Scene(true, Running, NoDir, Inspecting(ReadRecord(0, false)), Dir(Record(1)),
                            Directory(Record(0))))
  {
    hide Reachable, Scene;
    InspectorLists();
    var d, c := Directory(Record(0)), Dir(Record(1));
    ListingIsUnique(Record(0), 0);
    assert Record(0).Keys == {OwnerFile(0)};
    InspectorActs(true, Inspecting(List), c, Inspecting(StatEntries(0, false, {OwnerFile(0)})), c,
                  Running, NoDir, d, d);
    OwnerFileIsStatted();
    InspectorActs(true, Inspecting(StatEntries(0, false, {})), c, Inspecting(ReadRecord(0, false)), c,
                  Running, NoDir, d, d);
  }

  lemma OwnerCrashesReleasing()
    ensures Reachable(Scene(false, Releasing(WriteTemp), NoDir, Inspecting(ReadRecord(0, false)), Dir(Record(1)),
                            Directory(Record(0)[TempFile(0) := Partial])))
  {
    hide Reachable, Scene;
    ListingComesFirst();
    var d, c := Record(0), Dir(Record(1));
    var i := Inspecting(ReadRecord(0, false));
    OwnerActs(Running, NoDir, Releasing(ReadOwn), NoDir, i, c, Directory(d), Directory(d));
    OwnerActs(Releasing(ReadOwn), NoDir, Releasing(CreateTemp), NoDir, i, c, Directory(d), Directory(d));
    OwnerActs(Releasing(CreateTemp), NoDir, Releasing(WriteTemp), NoDir, i, c,
              Directory(d), Directory(d[TempFile(0) := Partial]));
    OwnerCrashes(i, c, Directory(d[TempFile(0) := Partial]));
  }

  lemma InspectorProbes()
    ensures Reachable(Scene(false, Releasing(WriteTemp), NoDir, Inspecting(UnlinkOwner(0)), Dir(Record(1)),
                            Directory(Record(0)[TempFile(0) := Partial])))
  {
    hide Reachable, Scene;
    OwnerCrashesReleasing();
    var d, c, w := Record(0)[TempFile(0) := Partial], Dir(Record(1)), Releasing(WriteTemp);
    var read, probe := Inspecting(ReadRecord(0, false)), Inspecting(Probe(0, false, 10));
    InspectorActs(false, read, c, probe, c, w, NoDir, Directory(d), Directory(d));
    InspectorActs(false, probe, c, Inspecting(UnlinkOwner(0)), c, w, NoDir, Directory(d), Directory(d));
  }

  lemma InspectorLeaves()
    ensures Reachable(Scene(false, Releasing(WriteTemp), NoDir, Checking, Dir(Record(1)),
                            Directory(map[TempFile(0) := Partial])))
  {
    hide Reachable, Scene;
    InspectorProbes();
    var d, o := Record(0)[TempFile(0) := Partial], map[TempFile(0) := Partial];
    var c, w := Dir(Record(1)), Releasing(WriteTemp);
    assert d - {OwnerFile(0)} == o;
    InspectorActs(false, Inspecting(UnlinkOwner(0)), c, Inspecting(Rmdir), c, w, NoDir, Directory(d), Directory(o));
    assert TempFile(0) in o;
    InspectorActs(false, Inspecting(Rmdir), c, Checking, c, w, NoDir, Directory(o), Directory(o));
  }

  /** From a free path, two processes can reach an orphan: the listing precedes the temp file, and
      the owner crashes before it has published. */
  lemma OrphanIsReachable()
    ensures exists t :: Reachable(t) && Orphaned(t, 0)
  {
    hide Reachable;
    InspectorLeaves();
    var o := Directory(map[TempFile(0) := Partial]);
    assert Orphaned(Scene(false, Releasing(WriteTemp), NoDir, Checking, Dir(Record(1)), o), 0);
  }
}

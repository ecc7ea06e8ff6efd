/** The index behind the directory lock: its calls make several puts inside one callback, and a crash
    between two of them leaves the rest to whoever holds the lock next. */
module LockedIndex {
  import opened Wrappers
  import opened AddressIndex
  import opened IndexRecovery
  import L = DirectoryLock
  import K = LockedStore

  type Nonce = L.Nonce

  /** What a callback has computed: the puts of its call, which stands at `at` among all calls. */
  datatype Callback = Callback(at: nat, puts: seq<Put>)

  /** `log` lists the calls in the order they began, each with the puts it has made so far. */
  datatype Shared = Shared(lock: L.State, disk: Disk, begun: map<Nonce, Callback>, log: seq<Cut>)

  datatype SharedStep = LockStep(action: L.Action) | BeginCall(nonce: Nonce, cut: Cut) | MakePut(nonce: Nonce)

  /** A callback computes its puts once and makes them one by one; it may end, raise or crash between
      any two. */
  ghost predicate CanDo(s: Shared, step: SharedStep) {
    match step
    case LockStep(a) => L.Enabled(s.lock, a)
    case BeginCall(n, _) => K.InCallback(s.lock, n) && n !in s.begun
    case MakePut(n) =>
      && K.InCallback(s.lock, n)
      && n in s.begun
      && s.begun[n].at < |s.log|
      && s.log[s.begun[n].at].kept < |s.begun[n].puts|
  }

  ghost function Do(root: string, s: Shared, step: SharedStep): Shared
    requires CanDo(s, step)
  {
    match step
    case LockStep(a) => s.(lock := L.Next(s.lock, a))
    case BeginCall(n, cut) =>
      var c := cut.(kept := 0);
      s.(begun := s.begun[n := Callback(|s.log|, CallOf(s.disk, root, c).puts)], log := s.log + [c])
    case MakePut(n) =>
      var at := s.begun[n].at;
      var k := s.log[at].kept;
      var put := s.begun[n].puts[k];
      s.(disk := s.disk[put.key := put.value], log := s.log[at := s.log[at].(kept := k + 1)])
  }

  ghost predicate Possible(root: string, s: Shared, steps: seq<SharedStep>)
    decreases |steps|
  {
    steps == [] || (CanDo(s, steps[0]) && Possible(root, Do(root, s, steps[0]), steps[1..]))
  }

  ghost function After(root: string, s: Shared, steps: seq<SharedStep>): Shared
    requires Possible(root, s, steps)
    decreases |steps|
  {
    if steps == [] then s else After(root, Do(root, s, steps[0]), steps[1..])
  }

  predicate Starts(s: Shared) {
    L.Init(s.lock) && s.begun == map[] && s.log == []
  }

  /** A running callback is the last to have begun, and its puts are those of its call on the disk that
      all calls before it left. */
  ghost predicate CallbackOk(from: Disk, root: string, s: Shared, n: Nonce)
    requires n in s.begun
  {
    && K.HasEntered(s.lock, n)
    && s.begun[n].at < |s.log|
    && (K.InCallback(s.lock, n) ==>
          var at := s.begun[n].at;
          && at == |s.log| - 1
          && s.log[at].kept <= |s.begun[n].puts|
          && s.begun[n].puts == CallOf(AfterCuts(from, root, s.log[..at]), root, s.log[at]).puts)
  }

  ghost predicate SharedInv(from: Disk, root: string, s: Shared) {
    && L.Inv(s.lock)
    && s.disk == AfterCuts(from, root, s.log)
    && forall n | n in s.begun :: CallbackOk(from, root, s, n)
  }

  lemma {:induction false} AfterCutsSnoc(d: Disk, root: string, cuts: seq<Cut>, c: Cut)
    ensures AfterCuts(d, root, cuts + [c]) == AfterCut(AfterCuts(d, root, cuts), root, c)
    decreases |cuts|
  {
    hide AfterCut;
    if cuts == [] {
      assert [c][1..] == [];
      assert [] + [c] == [c];
    } else {
      assert (cuts + [c])[1..] == cuts[1..] + [c];
      AfterCutsSnoc(AfterCut(d, root, cuts[0]), root, cuts[1..], c);
    }
  }

  lemma SameCall(d: Disk, root: string, c: Cut, kept: nat)
    ensures CallOf(d, root, c.(kept := kept)) == CallOf(d, root, c)
  {
  }

  /** A call that has made no put yet has changed nothing. */
  lemma NothingKept(d: Disk, root: string, c: Cut)
    requires c.kept == 0
    ensures AfterCut(d, root, c) == d
  {
    var puts := CallOf(d, root, c).puts;
    assert Kept(c, puts) == [];
    hide CallOf;
  }

  lemma OneMoreKept(d: Disk, root: string, c: Cut, k: nat)
    requires c.kept == k && k < |CallOf(d, root, c).puts|
    ensures var put := CallOf(d, root, c).puts[k];
            AfterCut(d, root, c.(kept := k + 1)) == AfterCut(d, root, c)[put.key := put.value]
  {
    SameCall(d, root, c, k + 1);
    var puts := CallOf(d, root, c).puts;
    hide CallOf;
    assert puts[..k + 1] == puts[..k] + [puts[k]];
    assert k + 1 == |puts| ==> puts[..k + 1] == puts;
    ApplySnoc(d, puts[..k], puts[k]);
  }

  lemma LockStepKeeps(from: Disk, root: string, s: Shared, a: L.Action)
    requires SharedInv(from, root, s) && L.Enabled(s.lock, a)
    ensures SharedInv(from, root, Do(root, s, LockStep(a)))
  {
    var t := Do(root, s, LockStep(a));
    L.StepKeepsInv(s.lock, a);
    hide L.Inv, L.Next, AfterCuts, CallOf, K.InCallback, K.HasEntered;
    forall n | n in t.begun
      ensures CallbackOk(from, root, t, n)
    {
      assert CallbackOk(from, root, s, n);
      K.EnteredOnce(s.lock, a, n);
    }
  }

  lemma CallerHasEntered(s: L.State, n: Nonce)
    requires K.InCallback(s, n)
    ensures K.HasEntered(s, n)
  {
  }

  lemma BeginKeeps(from: Disk, root: string, s: Shared, n: Nonce, cut: Cut)
    requires SharedInv(from, root, s) && CanDo(s, BeginCall(n, cut))
    ensures SharedInv(from, root, Do(root, s, BeginCall(n, cut)))
  {
    var t, c := Do(root, s, BeginCall(n, cut)), cut.(kept := 0);
    AfterCutsSnoc(from, root, s.log, c);
    NothingKept(s.disk, root, c);
    assert t.log[..|s.log|] == s.log;
    hide L.Inv, AfterCuts, CallOf, AfterCut, K.HasEntered;
    forall m | m in t.begun
      ensures CallbackOk(from, root, t, m)
    {
      CallerHasEntered(s.lock, n);
      if m != n {
        assert CallbackOk(from, root, s, m);
        if K.InCallback(s.lock, m) {
          K.OneCallback(s.lock, n, m);
        }
      }
    }
  }

  /** One put more of the last call. */
  lemma LogGrows(from: Disk, root: string, before: seq<Cut>, c: Cut)
    requires c.kept < |CallOf(AfterCuts(from, root, before), root, c).puts|
    ensures var put := CallOf(AfterCuts(from, root, before), root, c).puts[c.kept];
            AfterCuts(from, root, before + [c.(kept := c.kept + 1)])
            == AfterCuts(from, root, before + [c])[put.key := put.value]
  {
    hide AfterCuts, CallOf, AfterCut;
    AfterCutsSnoc(from, root, before, c);
    AfterCutsSnoc(from, root, before, c.(kept := c.kept + 1));
    OneMoreKept(AfterCuts(from, root, before), root, c, c.kept);
  }

  lemma PutLands(from: Disk, root: string, s: Shared, n: Nonce)
    requires SharedInv(from, root, s) && CanDo(s, MakePut(n))
    ensures var t, at := Do(root, s, MakePut(n)), s.begun[n].at;
            && t.disk == AfterCuts(from, root, t.log)
            && at == |s.log| - 1 && |t.log| == |s.log| && t.log[..at] == s.log[..at]
            && s.begun[n].puts == CallOf(AfterCuts(from, root, s.log[..at]), root, t.log[at]).puts
  {
    hide L.Inv, AfterCuts, CallOf, K.InCallback, K.HasEntered;
    assert CallbackOk(from, root, s, n);
    var at := s.begun[n].at;
    var k := s.log[at].kept;
    var put := s.begun[n].puts[k];
    assert Do(root, s, MakePut(n)) ==
           s.(disk := s.disk[put.key := put.value], log := s.log[at := s.log[at].(kept := k + 1)]);
    hide SharedInv, CallbackOk, Do;
    LastGrows(from, root, s.log, s.begun[n].puts);
  }

  /** The last call of a log makes its next put. */
  lemma LastGrows(from: Disk, root: string, log: seq<Cut>, puts: seq<Put>)
    requires log != []
    requires var at := |log| - 1;
             puts == CallOf(AfterCuts(from, root, log[..at]), root, log[at]).puts && log[at].kept < |puts|
    ensures var at := |log| - 1;
            var more := log[at := log[at].(kept := log[at].kept + 1)];
            var put := puts[log[at].kept];
            && AfterCuts(from, root, more) == AfterCuts(from, root, log)[put.key := put.value]
            && more[..at] == log[..at]
            && puts == CallOf(AfterCuts(from, root, log[..at]), root, more[at]).puts
  {
    hide AfterCuts, CallOf;
    var at := |log| - 1;
    var before, c := log[..at], log[at];
    LastReplaced(log, at, c.(kept := c.kept + 1));
    LogGrows(from, root, before, c);
    SameCall(AfterCuts(from, root, before), root, c, c.kept + 1);
  }

  lemma LastReplaced<T>(log: seq<T>, at: nat, c: T)
    requires at == |log| - 1
    ensures log == log[..at] + [log[at]] && log[at := c] == log[..at] + [c] && log[at := c][..at] == log[..at]
  {
  }

  lemma PutKeeps(from: Disk, root: string, s: Shared, n: Nonce)
    requires SharedInv(from, root, s) && CanDo(s, MakePut(n))
    ensures SharedInv(from, root, Do(root, s, MakePut(n)))
  {
    var t := Do(root, s, MakePut(n));
    PutLands(from, root, s, n);
    hide L.Inv, AfterCuts, CallOf;
    forall m | m in t.begun
      ensures CallbackOk(from, root, t, m)
    {
      assert CallbackOk(from, root, s, m);
      if m != n && K.InCallback(s.lock, m) {
        K.OneCallback(s.lock, n, m);
      }
    }
  }

  lemma {:induction false} StepsKeep(from: Disk, root: string, s: Shared, steps: seq<SharedStep>)
    requires SharedInv(from, root, s) && Possible(root, s, steps)
    ensures SharedInv(from, root, After(root, s, steps))
    decreases |steps|
  {
    if steps != [] {
      hide SharedInv;
      match steps[0] {
        case LockStep(a) => LockStepKeeps(from, root, s, a);
        case BeginCall(n, cut) => BeginKeeps(from, root, s, n, cut);
        case MakePut(n) => PutKeeps(from, root, s, n);
      }
      StepsKeep(from, root, Do(root, s, steps[0]), steps[1..]);
    }
  }

  /** Whatever the interleaving of filesystem calls and puts, crashes included, the disk is what the
      calls leave one after another in the order they began, each cut off after the puts it made. */
  lemma ConcurrentCallsAreSerial(root: string, s: Shared, steps: seq<SharedStep>)
    requires Starts(s) && Possible(root, s, steps)
    ensures var t := After(root, s, steps); t.disk == AfterCuts(s.disk, root, t.log)
  {
    L.InitInv(s.lock);
    StepsKeep(s.disk, root, s, steps);
  }

  /** So from a fresh root the disk always stands for an index, and no call that begins is answered an
      integrity error. */
  lemma SharedIndexHolds(root: string, s: Shared, steps: seq<SharedStep>, c: Cut) returns (y: Index)
    requires Starts(s) && Possible(root, s, steps) && IndexRecovery.Untouched(s.disk, root)
    ensures var t := After(root, s, steps);
            && Holds(t.disk, root, y)
            && CallOf(t.disk, root, c).reply ==
               if c.CutRecord? && Refused(Settled(y), c.address, c.limit) then Err(LimitExceeded) else Ok(())
  {
    ConcurrentCallsAreSerial(root, s, steps);
    y := IntegrityErrorsAreUnreachable(s.disk, root, After(root, s, steps).log, c);
  }

  // ----- a callback that is left alone -----

  lemma {:induction false} PutsAll(root: string, s: Shared, n: Nonce, puts: seq<Put>) returns (steps: seq<SharedStep>)
    requires K.InCallback(s.lock, n) && n in s.begun && s.begun[n].at < |s.log|
    requires s.log[s.begun[n].at].kept <= |s.begun[n].puts| && puts == s.begun[n].puts[s.log[s.begun[n].at].kept..]
    ensures Possible(root, s, steps) && After(root, s, steps).disk == Apply(s.disk, puts)
    ensures After(root, s, steps).lock == s.lock
    decreases |puts|
  {
    if puts == [] {
      steps := [];
    } else {
      var t := Do(root, s, MakePut(n));
      hide K.InCallback;
      var rest := PutsAll(root, t, n, puts[1..]);
      steps := [MakePut(n)] + rest;
      assert steps[1..] == rest;
    }
  }

  /** It makes every put of its call, and so leaves what the call leaves when nothing cuts it off. */
  lemma {:induction false} CallbackCompletes(root: string, s: Shared, n: Nonce, c: Cut)
    returns (steps: seq<SharedStep>)
    requires K.InCallback(s.lock, n) && n !in s.begun
    ensures Possible(root, s, steps)
    ensures After(root, s, steps).disk == Apply(s.disk, CallOf(s.disk, root, c).puts)
  {
    SameCall(s.disk, root, c, 0);
    var puts := CallOf(s.disk, root, c).puts;
    var t := Do(root, s, BeginCall(n, c));
    assert puts[0..] == puts;
    hide K.InCallback, CallOf;
    var rest := PutsAll(root, t, n, puts);
    steps := [BeginCall(n, c)] + rest;
    assert steps[1..] == rest;
  }
}

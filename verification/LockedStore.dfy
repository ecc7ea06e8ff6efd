/** Get and put as separate steps inside a callback that the directory lock guards.

    The document is one key of the store; a callback reads it, reads the clock, computes and writes,
    and may end or crash between any two of these. */
module LockedStore {
  import opened DirectoryLock

  /** How far a callback has come. */
  datatype Local<D> = Fresh | Seen(doc: D) | Timed(doc: D, at: real) | Written

  datatype Commit<R> = Commit(nonce: Nonce, at: real, reply: R)

  /** `log` lists the puts in the order they happened. */
  datatype Store<D, R> = Store(
    lock: State,
    doc: D,
    locals: map<Nonce, Local<D>>,
    clock: real,
    log: seq<Commit<R>>)

  datatype StoreAction =
    | Lock(action: Action)
    | Tick(now: real)
    | Get(nonce: Nonce)
    | Look(nonce: Nonce)
    | Put(nonce: Nonce)

  /** What the callback of each attempt computes from the document and the clock. */
  type Job<!D, !R> = (Nonce, D, real) -> (D, R)

  predicate InCallback(s: State, n: Nonce) {
    Live(s, n) && s.attempts[n].phase.Running?
  }

  function LocalOf<D, R>(s: Store<D, R>, n: Nonce): Local<D> {
    if n in s.locals then s.locals[n] else Fresh
  }

  ghost predicate CanDo<D, R>(s: Store<D, R>, a: StoreAction) {
    match a
    case Lock(l) => Enabled(s.lock, l)
    case Tick(now) => s.clock <= now
    case Get(n) => InCallback(s.lock, n) && LocalOf(s, n).Fresh?
    case Look(n) => InCallback(s.lock, n) && LocalOf(s, n).Seen?
    case Put(n) => InCallback(s.lock, n) && LocalOf(s, n).Timed?
  }

  ghost function Do<D, R>(job: Job<D, R>, s: Store<D, R>, a: StoreAction): Store<D, R>
    requires CanDo(s, a)
  {
    match a
    case Lock(l) => s.(lock := Next(s.lock, l))
    case Tick(now) => s.(clock := now)
    case Get(n) => s.(locals := s.locals[n := Seen(s.doc)])
    case Look(n) => s.(locals := s.locals[n := Timed(LocalOf(s, n).doc, s.clock)])
    case Put(n) =>
      var local := LocalOf(s, n);
      var (doc, reply) := job(n, local.doc, local.at);
      s.(doc := doc, locals := s.locals[n := Written], log := s.log + [Commit(n, local.at, reply)])
  }

  ghost predicate Starts<D, R>(s: Store<D, R>) {
    Init(s.lock) && s.locals == map[] && s.log == []
  }

  /** `t` comes after `s` by `k` steps. */
  ghost predicate Leads<D(!new), R(!new)>(job: Job<D, R>, s: Store<D, R>, t: Store<D, R>, k: nat)
    decreases k
  {
    if k == 0 then s == t
    else exists u: Store<D, R>, a :: Leads(job, s, u, k - 1) && CanDo(u, a) && Do(job, u, a) == t
  }

  // ----- serial execution -----

  /** The document after the first `k` commits, executed one after another. */
  function Serial<D, R>(job: Job<D, R>, doc: D, log: seq<Commit<R>>): D
    decreases |log|
  {
    if log == [] then doc
    else
      var last := log[|log| - 1];
      job(last.nonce, Serial(job, doc, log[..|log| - 1]), last.at).0
  }

  /** Every commit answered what the serial execution answers there, in an order the clock agrees
      with, and no callback committed twice. */
  ghost predicate IsSerial<D, R(!new)>(job: Job<D, R>, doc: D, log: seq<Commit<R>>) {
    && (forall i | 0 <= i < |log| ::
          log[i].reply == job(log[i].nonce, Serial(job, doc, log[..i]), log[i].at).1)
    && (forall i, j | 0 <= i < j < |log| :: log[i].at <= log[j].at && log[i].nonce != log[j].nonce)
  }

  ghost predicate StoreInv<D, R(!new)>(job: Job<D, R>, from: Store<D, R>, s: Store<D, R>) {
    && Inv(s.lock)
    && s.doc == Serial(job, from.doc, s.log)
    && IsSerial(job, from.doc, s.log)
    && from.clock <= s.clock
    && (forall i | 0 <= i < |s.log| ::
          from.clock <= s.log[i].at <= s.clock && LocalOf(s, s.log[i].nonce).Written?)
    && (forall n | n in s.locals :: n in s.lock.attempts && HasEntered(s.lock, n) && Ready(from.clock, s, n))
  }

  predicate HasEntered(s: State, n: Nonce) {
    n in s.attempts && (Entered(s.attempts[n].phase) || s.attempts[n].phase.Done?)
  }

  /** A callback that has read sees the document as it is, until it writes. */
  ghost predicate Ready<D, R(!new)>(start: real, s: Store<D, R>, n: Nonce) {
    InCallback(s.lock, n) ==>
      match LocalOf(s, n)
      case Seen(d) => d == s.doc
      case Timed(d, at) => d == s.doc && start <= at <= s.clock && forall i | 0 <= i < |s.log| :: s.log[i].at <= at
      case _ => true
  }

  lemma OneCallback(s: State, n: Nonce, m: Nonce)
    requires Inv(s) && InCallback(s, n) && InCallback(s, m)
    ensures n == m
  {
    assert Good(s, n) && Good(s, m);
    HolderIsUnique(s, n, m);
  }

  lemma EnteredCall(windows: bool, n: Nonce, v: View, o: Outcome)
    requires Entered(v.me.phase)
    ensures var w := MyStep(windows, n, v, o); (Entered(w.me.phase) || w.me.phase.Done?) && !w.me.phase.Running?
  {
  }

  lemma EnteredOnce(s: State, a: Action, n: Nonce)
    requires Inv(s) && Enabled(s, a) && HasEntered(s, n)
    ensures HasEntered(Next(s, a), n) && (InCallback(Next(s, a), n) ==> InCallback(s, n))
  {
    if a.Act? && a.nonce == n {
      EnteredCall(s.windows, n, View(s.attempts[n], s.lock), a.outcome);
    }
    hide Inv, MyStep;
  }

  lemma ReadyStays<D, R(!new)>(job: Job<D, R>, from: Store<D, R>, s: Store<D, R>, a: Action, n: Nonce)
    requires Inv(s.lock) && Enabled(s.lock, a) && HasEntered(s.lock, n) && Ready(from.clock, s, n)
    ensures n in Next(s.lock, a).attempts && HasEntered(Next(s.lock, a), n)
    ensures Ready(from.clock, Do(job, s, Lock(a)), n)
  {
    EnteredOnce(s.lock, a, n);
    hide Inv, Next, InCallback, HasEntered;
  }

  lemma LockStepKeeps<D, R(!new)>(job: Job<D, R>, from: Store<D, R>, s: Store<D, R>, a: Action)
    requires StoreInv(job, from, s) && Enabled(s.lock, a)
    ensures StoreInv(job, from, Do(job, s, Lock(a)))
  {
    hide Inv, Next, Enabled, Grows, IsSerial, Serial, Ready, InCallback, HasEntered;
    var s' := Do(job, s, Lock(a));
    StepKeepsInv(s.lock, a);
    forall n | n in s'.locals
      ensures n in s'.lock.attempts && HasEntered(s'.lock, n) && Ready(from.clock, s', n)
    {
      ReadyStays(job, from, s, a, n);
    }
  }

  lemma SerialExtends<D, R(!new)>(job: Job<D, R>, doc: D, log: seq<Commit<R>>, c: Commit<R>)
    requires IsSerial(job, doc, log) && c.reply == job(c.nonce, Serial(job, doc, log), c.at).1
    requires forall i | 0 <= i < |log| :: log[i].at <= c.at && log[i].nonce != c.nonce
    ensures IsSerial(job, doc, log + [c])
    ensures Serial(job, doc, log + [c]) == job(c.nonce, Serial(job, doc, log), c.at).0
  {
    var all := log + [c];
    assert all[..|log|] == log;
    assert forall i | 0 <= i < |log| :: all[..i] == log[..i];
  }

  lemma PutIsSerial<D, R(!new)>(job: Job<D, R>, from: Store<D, R>, s: Store<D, R>, n: Nonce)
    requires StoreInv(job, from, s) && CanDo(s, Put(n))
    ensures var t := Do(job, s, Put(n)); t.doc == Serial(job, from.doc, t.log) && IsSerial(job, from.doc, t.log)
  {
    hide Inv, IsSerial, Serial;
    assert Ready(from.clock, s, n);
    var local := LocalOf(s, n);
    SerialExtends(job, from.doc, s.log, Commit(n, local.at, job(n, local.doc, local.at).1));
  }

  lemma OthersAreReady<D, R(!new)>(job: Job<D, R>, from: Store<D, R>, s: Store<D, R>, n: Nonce, m: Nonce)
    requires StoreInv(job, from, s) && CanDo(s, Put(n)) && m in Do(job, s, Put(n)).locals
    ensures var t := Do(job, s, Put(n));
            m in t.lock.attempts && HasEntered(t.lock, m) && Ready(from.clock, t, m)
  {
    hide Inv, IsSerial, Serial;
    assert Ready(from.clock, s, n);
    if m != n && InCallback(s.lock, m) {
      OneCallback(s.lock, n, m);
    }
  }

  lemma PutKeeps<D, R(!new)>(job: Job<D, R>, from: Store<D, R>, s: Store<D, R>, n: Nonce)
    requires StoreInv(job, from, s) && CanDo(s, Put(n))
    ensures StoreInv(job, from, Do(job, s, Put(n)))
  {
    hide Inv, IsSerial, Serial, HasEntered;
    var t := Do(job, s, Put(n));
    PutIsSerial(job, from, s, n);
    assert Ready(from.clock, s, n);
    hide InCallback;
    forall m | m in t.locals
      ensures m in t.lock.attempts && HasEntered(t.lock, m) && Ready(from.clock, t, m)
    {
      OthersAreReady(job, from, s, n, m);
    }
  }

  lemma OtherStepKeeps<D, R(!new)>(job: Job<D, R>, from: Store<D, R>, s: Store<D, R>, a: StoreAction)
    requires StoreInv(job, from, s) && CanDo(s, a) && !a.Put? && !a.Lock?
    ensures StoreInv(job, from, Do(job, s, a))
  {
    hide Inv, IsSerial;
    var t := Do(job, s, a);
    forall m | m in t.locals
      ensures m in t.lock.attempts && HasEntered(t.lock, m) && Ready(from.clock, t, m)
    {
      assert m in s.locals ==> Ready(from.clock, s, m);
    }
  }

  lemma {:induction false} LeadsKeeps<D(!new), R(!new)>(job: Job<D, R>, s: Store<D, R>, t: Store<D, R>, k: nat)
    requires Starts(s) && Leads(job, s, t, k)
    ensures StoreInv(job, s, t)
    decreases k
  {
    if k == 0 {
      InitInv(s.lock);
    } else {
      var u: Store<D, R>, a :| Leads(job, s, u, k - 1) && CanDo(u, a) && Do(job, u, a) == t;
      LeadsKeeps(job, s, u, k - 1);
      if a.Lock? {
        LockStepKeeps(job, s, u, a.action);
      } else if a.Put? {
        PutKeeps(job, s, u, a.nonce);
      } else {
        OtherStepKeeps(job, s, u, a);
      }
    }
  }

  /** Whatever the interleaving, crashes and refusals included, the store holds what some serial
      order of the callbacks leaves, and each callback was answered in that order. */
  lemma CallbacksAreSerial<D(!new), R(!new)>(job: Job<D, R>, s: Store<D, R>, t: Store<D, R>, k: nat)
    requires Starts(s) && Leads(job, s, t, k)
    ensures t.doc == Serial(job, s.doc, t.log) && IsSerial(job, s.doc, t.log)
    ensures forall i | 0 <= i < |t.log| :: s.clock <= t.log[i].at <= t.clock
  {
    LeadsKeeps(job, s, t, k);
  }

  /** A callback that is left alone reads, asks the clock and writes: its job lands on the document as it
      stood, and is answered. */
  lemma CallbackCommits<D, R>(job: Job<D, R>, s: Store<D, R>, n: Nonce)
    requires InCallback(s.lock, n) && LocalOf(s, n).Fresh?
    ensures CanDo(s, Get(n))
    ensures var s1 := Do(job, s, Get(n)); CanDo(s1, Look(n))
    ensures var s2 := Do(job, Do(job, s, Get(n)), Look(n)); CanDo(s2, Put(n))
    ensures var t, done := Do(job, Do(job, Do(job, s, Get(n)), Look(n)), Put(n)), job(n, s.doc, s.clock);
            && t.doc == done.0
            && t.log == s.log + [Commit(n, s.clock, done.1)]
            && t.lock == s.lock && LocalOf(t, n).Written?
  {
    hide InCallback;
  }
}

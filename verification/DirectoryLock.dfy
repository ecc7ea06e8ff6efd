/** The nonce-bound directory lock, as a transition system with one filesystem call per step.

    Any number of processes run any number of acquisition attempts on one canonical path.  An
    attempt is named by its nonce.  Every call may be refused without effect, and every process may
    crash between two calls. */
module DirectoryLock {

  type Nonce = nat

  /** `Known` stands for an identity whose PID namespace is established; every other identity
      compares unequal to everything, itself included. */
  datatype Identity = Known(realm: nat) | Unknown

  predicate SameIdentity(owner: Identity, local: Identity) {
    owner.Known? && local.Known? && owner == local
  }

  datatype Owner = Owner(pid: nat, identity: Identity, nonce: Nonce, released: bool)

  datatype Name = OwnerFile(nonce: Nonce) | TempFile(nonce: Nonce) | Stray(id: nat)

  /** `Partial` is a regular file holding no parseable record. */
  datatype File = Complete(owner: Owner) | Partial | NotRegular

  type Dir = map<Name, File>

  datatype Node = Missing | Directory(entries: Dir) | LegacyFile | Special

  datatype Process = Process(pid: nat, realm: nat, alive: bool)

  /** Where an inspection stands.  `temporary` is fixed by the listing. */
  datatype Inspection =
    | Lstat
    | List
    | StatEntries(target: Nonce, temporary: bool, left: set<Name>)
    | ReadRecord(target: Nonce, temporary: bool)
    | Probe(target: Nonce, temporary: bool, pid: nat)
    | UnlinkTemp(target: Nonce)
    | UnlinkOwner(target: Nonce)
    | Rmdir

  datatype Release = ReadOwn | CreateTemp | WriteTemp | Replace | CleanTemp | UnlinkOwn | RmdirOwn

  datatype Phase =
    | Preparing
    | Creating
    | Writing
    | Checking
    | Renaming
    | Inspecting(inspection: Inspection)
    | Abandoning
    | Sweeping
    | Failed
    | Running
    | Releasing(release: Release)
    | Parked
    | Done

  datatype Candidate = NoDir | Dir(files: Dir)

  /** One call of `with_file_owner_lock`.  `unlinked` is the flag of `_ReleaseProgress`, `pending`
      membership in the process's pending table; `published` records that the replace which
      publishes `released: true` has succeeded. */
  datatype Attempt = Attempt(
    proc: nat,
    pid: nat,
    identity: Identity,
    phase: Phase,
    candidate: Candidate,
    published: bool,
    unlinked: bool,
    pending: bool)

  /** `retired` holds the nonces that were on disk before the first modelled attempt. */
  datatype State = State(
    windows: bool,
    lock: Node,
    processes: map<nat, Process>,
    attempts: map<Nonce, Attempt>,
    retired: set<Nonce>)

  /** `Refuse` is a held error that is retried or classified as held, `Exhaust` the fifth one in a
      row, `GiveUp` any other error or a passed deadline. */
  datatype Outcome = Proceed | Refuse | Exhaust | GiveUp

  datatype Action =
    | Spawn(proc: nat, pid: nat, realm: nat)
    | Crash(proc: nat)
    | Begin(nonce: Nonce, proc: nat, identity: Identity)
    | Act(nonce: Nonce, outcome: Outcome)
    | StatEntry(nonce: Nonce, name: Name)

  // ----- reading a state -----

  predicate Alive(s: State, p: nat) {
    p in s.processes && s.processes[p].alive
  }

  predicate Live(s: State, n: Nonce) {
    n in s.attempts && Alive(s, s.attempts[n].proc)
  }

  function Files(lock: Node): Dir {
    if lock.Directory? then lock.entries else map[]
  }

  function RecordOf(n: Nonce, a: Attempt, released: bool): Owner {
    Owner(a.pid, a.identity, n, released)
  }

  predicate Entered(phase: Phase) {
    phase.Running? || phase.Releasing? || phase.Parked?
  }

  /** Between the successful rename and the successful publication of `released: true`. */
  predicate Holding(a: Attempt) {
    !a.published && Entered(a.phase)
  }

  // ----- the filesystem -----

  /** POSIX replaces an empty directory; Windows refuses every existing target. */
  predicate CanReplace(windows: bool, lock: Node) {
    lock.Missing? || (!windows && lock == Directory(map[]))
  }

  function Unlinked(lock: Node, name: Name): Node {
    if lock.Directory? then Directory(lock.entries - {name}) else lock
  }

  /** Non-recursive: a populated directory stays. */
  function Removed(lock: Node): Node {
    if lock == Directory(map[]) then Missing else lock
  }

  function Stored(lock: Node, name: Name, file: File): Node {
    if lock.Directory? then Directory(lock.entries[name := file]) else lock
  }

  // ----- the steps of one attempt -----

  /** An attempt and the canonical path, before or after a call. */
  datatype View = View(me: Attempt, lock: Node)

  function GoTo(v: View, phase: Phase): View {
    v.(me := v.me.(phase := phase))
  }

  function WithFiles(v: View, phase: Phase, candidate: Candidate): View {
    v.(me := v.me.(phase := phase, candidate := candidate))
  }

  /** Publication, and the clean-up of the private candidate when it fails. */
  function AcquireStep(windows: bool, n: Nonce, v: View, o: Outcome): View {
    match v.me.phase
    case Preparing =>
      if o.Proceed? then WithFiles(v, Creating, Dir(map[])) else GoTo(v, Failed)
    case Creating =>
      if o.Proceed? then WithFiles(v, Writing, Dir(map[OwnerFile(n) := Partial])) else GoTo(v, Abandoning)
    case Writing =>
      if o.Proceed? then WithFiles(v, Checking, Dir(map[OwnerFile(n) := Complete(RecordOf(n, v.me, false))]))
      else GoTo(v, Abandoning)
    case Checking =>
      if o.Proceed? && (v.lock.Missing? || v.lock.Directory?) then GoTo(v, Renaming) else GoTo(v, Abandoning)
    case Renaming =>
      if o.GiveUp? then GoTo(v, Abandoning)
      else if o.Proceed? && CanReplace(windows, v.lock) && v.me.candidate.Dir? then
        WithFiles(v, Running, NoDir).(lock := Directory(v.me.candidate.files))
      else GoTo(v, Inspecting(Lstat))
    case Abandoning =>
      if o.Refuse? then v
      else if o.Proceed? && v.me.candidate.Dir? && OwnerFile(n) in v.me.candidate.files then
        WithFiles(v, Sweeping, Dir(v.me.candidate.files - {OwnerFile(n)}))
      else GoTo(v, Failed)
    case Sweeping =>
      if o.Refuse? then v
      else if o.Proceed? && v.me.candidate == Dir(map[]) then WithFiles(v, Failed, NoDir)
      else GoTo(v, Failed)
    case _ => v
  }

  function OwnersIn(d: Dir): set<Name> {
    set name: Name | name in d && name.OwnerFile?
  }

  /** What a listing concludes: exactly one owner file and nothing but it and its temp file. */
  predicate Listed(d: Dir, t: Nonce) {
    OwnersIn(d) == {OwnerFile(t)} && d.Keys <= {OwnerFile(t), TempFile(t)}
  }

  function Clean(t: Nonce, temporary: bool): Inspection {
    if temporary then UnlinkTemp(t) else UnlinkOwner(t)
  }

  /** A held or retry result sends the attempt back to the top of its loop. */
  ghost function InspectStep(v: View, i: Inspection, o: Outcome): View {
    if o.GiveUp? then GoTo(v, Abandoning)
    else if o.Exhaust? then GoTo(v, Checking)
    else match i
      case Lstat =>
        if o.Refuse? then GoTo(v, Checking)
        else if v.lock.LegacyFile? then GoTo(v, Abandoning)
        else if v.lock.Directory? then GoTo(v, Inspecting(List))
        else GoTo(v, Checking)
      case List =>
        if o.Refuse? || !v.lock.Directory? then GoTo(v, Checking)
        else if exists t :: Listed(v.lock.entries, t) then
          var t :| Listed(v.lock.entries, t);
          GoTo(v, Inspecting(StatEntries(t, TempFile(t) in v.lock.entries, v.lock.entries.Keys)))
        else GoTo(v, Checking)
      case StatEntries(t, temporary, left) =>
        if o.Refuse? || left != {} then GoTo(v, Checking) else GoTo(v, Inspecting(ReadRecord(t, temporary)))
      case ReadRecord(t, temporary) =>
        if o.Refuse? || OwnerFile(t) !in Files(v.lock) then GoTo(v, Checking)
        else
          var file := Files(v.lock)[OwnerFile(t)];
          if !file.Complete? || file.owner.nonce != t || !SameIdentity(file.owner.identity, v.me.identity) then
            GoTo(v, Checking)
          else if !file.owner.released then GoTo(v, Inspecting(Probe(t, temporary, file.owner.pid)))
          else GoTo(v, Inspecting(Clean(t, temporary)))
      case Probe(t, temporary, _) =>
        if o.Refuse? then GoTo(v, Checking) else GoTo(v, Inspecting(Clean(t, temporary)))
      case UnlinkTemp(t) =>
        if o.Refuse? then GoTo(v, Checking)
        else GoTo(v, Inspecting(UnlinkOwner(t))).(lock := Unlinked(v.lock, TempFile(t)))
      case UnlinkOwner(t) =>
        if o.Refuse? then v
        else if OwnerFile(t) !in Files(v.lock) then GoTo(v, Checking)
        else GoTo(v, Inspecting(Rmdir)).(lock := Unlinked(v.lock, OwnerFile(t)))
      case Rmdir =>
        if o.Refuse? then v else GoTo(v, Checking).(lock := Removed(v.lock))
  }

  /** The lstat of one listed entry: gone means retry, not a regular file means held. */
  function StatStep(v: View, i: Inspection, name: Name): View
    requires i.StatEntries?
  {
    if name in Files(v.lock) && !Files(v.lock)[name].NotRegular? then
      GoTo(v, Inspecting(i.(left := i.left - {name})))
    else GoTo(v, Checking)
  }

  /** Leaving `_release` normally takes the nonce out of the pending table; raising puts it in. */
  function Finished(v: View): View {
    v.(me := v.me.(phase := Done, pending := false))
  }

  function Park(v: View): View {
    v.(me := v.me.(phase := Parked, pending := true))
  }

  function ReleaseStep(n: Nonce, v: View, r: Release, o: Outcome): View {
    if o.GiveUp? || o.Exhaust? then Park(v)
    else match r
      case ReadOwn =>
        if o.Refuse? then Park(v)
        else if OwnerFile(n) !in Files(v.lock) then Finished(v)
        else
          var file := Files(v.lock)[OwnerFile(n)];
          if !file.Complete? || file.owner.nonce != n then Park(v)
          else GoTo(v, Releasing(if file.owner.released then CleanTemp else CreateTemp))
      case CreateTemp =>
        if o.Refuse? || !v.lock.Directory? then Park(v)
        else GoTo(v, Releasing(WriteTemp)).(lock := Stored(v.lock, TempFile(n), Partial))
      case WriteTemp =>
        if o.Refuse? then Park(v)
        else if TempFile(n) in Files(v.lock) then
          GoTo(v, Releasing(Replace)).(lock := Stored(v.lock, TempFile(n), Complete(RecordOf(n, v.me, true))))
        else GoTo(v, Releasing(Replace))
      case Replace =>
        if o.Refuse? then v
        else if TempFile(n) !in Files(v.lock) then Park(v)
        else View(
          v.me.(phase := Releasing(UnlinkOwn), published := true),
          Stored(Unlinked(v.lock, TempFile(n)), OwnerFile(n), Files(v.lock)[TempFile(n)]))
      case CleanTemp =>
        if o.Refuse? then Park(v) else GoTo(v, Releasing(UnlinkOwn)).(lock := Unlinked(v.lock, TempFile(n)))
      case UnlinkOwn =>
        if o.Refuse? then v
        else if OwnerFile(n) !in Files(v.lock) then Finished(v)
        else View(v.me.(phase := Releasing(RmdirOwn), unlinked := true), Unlinked(v.lock, OwnerFile(n)))
      case RmdirOwn =>
        if o.Refuse? then v else Finished(v).(lock := Removed(v.lock))
  }

  ghost function MyStep(windows: bool, n: Nonce, v: View, o: Outcome): View {
    match v.me.phase
    case Inspecting(i) => InspectStep(v, i, o)
    case Running => GoTo(v, Releasing(ReadOwn))
    case Releasing(r) => ReleaseStep(n, v, r, o)
    case Parked => GoTo(v, Releasing(if v.me.unlinked then RmdirOwn else ReadOwn))
    case _ => AcquireStep(windows, n, v, o)
  }

  // ----- the steps of the system -----

  /** A probe may answer "dead" only when no live process of the prober's own realm has that PID. */
  predicate NobodyHas(s: State, identity: Identity, pid: nat) {
    forall p | p in s.processes && s.processes[p].alive ::
      !(identity == Known(s.processes[p].realm) && s.processes[p].pid == pid)
  }

  predicate MayAct(s: State, n: Nonce, o: Outcome)
    requires n in s.attempts
  {
    var me := s.attempts[n];
    && !me.phase.Failed? && !me.phase.Done?
    && (me.phase.Running? || me.phase.Parked? ==> o.Proceed?)
    && (me.phase.Inspecting? && me.phase.inspection.Probe? && o.Proceed? ==>
          NobodyHas(s, me.identity, me.phase.inspection.pid))
  }

  predicate Enabled(s: State, a: Action) {
    match a
    case Spawn(p, pid, realm) => p !in s.processes && NobodyHas(s, Known(realm), pid)
    case Crash(p) => Alive(s, p)
    case Begin(n, p, identity) =>
      Alive(s, p) && n !in s.attempts && n !in s.retired &&
      (identity.Known? ==> identity.realm == s.processes[p].realm)
    case Act(n, o) => Live(s, n) && MayAct(s, n, o)
    case StatEntry(n, name) =>
      Live(s, n) && s.attempts[n].phase.Inspecting? &&
      s.attempts[n].phase.inspection.StatEntries? && name in s.attempts[n].phase.inspection.left
  }

  function Placed(s: State, n: Nonce, v: View): State {
    s.(lock := v.lock, attempts := s.attempts[n := v.me])
  }

  ghost function Next(s: State, a: Action): State
    requires Enabled(s, a)
  {
    match a
    case Spawn(p, pid, realm) => s.(processes := s.processes[p := Process(pid, realm, true)])
    case Crash(p) => s.(processes := s.processes[p := s.processes[p].(alive := false)])
    case Begin(n, p, identity) =>
      s.(attempts := s.attempts[n := Attempt(p, s.processes[p].pid, identity, Preparing, NoDir, false, false, false)])
    case Act(n, o) => Placed(s, n, MyStep(s.windows, n, View(s.attempts[n], s.lock), o))
    case StatEntry(n, name) =>
      Placed(s, n, StatStep(View(s.attempts[n], s.lock), s.attempts[n].phase.inspection, name))
  }

  // ----- runs -----

  /** Any canonical path, any processes, no attempt yet. */
  predicate Init(s: State) {
    s.attempts == map[] && NamesOk(s)
  }

  ghost predicate Possible(s: State, run: seq<Action>)
    decreases |run|
  {
    run == [] || (Enabled(s, run[0]) && Possible(Next(s, run[0]), run[1..]))
  }

  ghost function After(s: State, run: seq<Action>): State
    requires Possible(s, run)
    decreases |run|
  {
    if run == [] then s else After(Next(s, run[0]), run[1..])
  }

  /** Some run from some initial state ends in `t`. */
  ghost predicate Reachable(t: State) {
    exists s, run :: Init(s) && Possible(s, run) && After(s, run) == t
  }

  lemma PossibleCons(s: State, a: Action, rest: seq<Action>)
    requires Enabled(s, a) && Possible(Next(s, a), rest)
    ensures Possible(s, [a] + rest) && After(s, [a] + rest) == After(Next(s, a), rest)
  {
    assert ([a] + rest)[1..] == rest;
  }

  // ----- the invariant of one attempt -----

  predicate HasCandidate(phase: Phase) {
    phase.Checking? || phase.Renaming? || phase.Inspecting?
  }

  /** A live holder owns the whole canonical directory. */
  predicate OwnsDirectory(n: Nonce, lock: Node) {
    lock.Directory? && OwnerFile(n) in lock.entries && lock.entries.Keys <= {OwnerFile(n), TempFile(n)}
  }

  predicate ReleaseOk(n: Nonce, a: Attempt, lock: Node, live: bool, r: Release) {
    match r
    case ReadOwn => !a.unlinked
    case CreateTemp => !a.published
    case WriteTemp => !a.published && (live ==> TempFile(n) in Files(lock))
    case Replace =>
      !a.published &&
      (live ==> TempFile(n) in Files(lock) && Files(lock)[TempFile(n)] == Complete(RecordOf(n, a, true)))
    case CleanTemp => a.published && !a.unlinked
    case UnlinkOwn => a.published && !a.unlinked
    case RmdirOwn => a.unlinked
  }

  /** The files an attempt has on disk, and what they say. */
  predicate DiskOk(n: Nonce, a: Attempt, lock: Node) {
    && (OwnerFile(n) in Files(lock) ==>
          Entered(a.phase) && !a.unlinked && Files(lock)[OwnerFile(n)] == Complete(RecordOf(n, a, a.published)))
    && (TempFile(n) in Files(lock) ==>
          (a.phase.Releasing? || a.phase.Parked?) && !a.published && !Files(lock)[TempFile(n)].NotRegular?)
  }

  predicate AttemptOk(n: Nonce, a: Attempt, lock: Node, live: bool) {
    && (a.unlinked ==> a.published)
    && (a.published ==> a.phase.Releasing? || a.phase.Parked? || a.phase.Done?)
    && (HasCandidate(a.phase) ==> a.candidate == Dir(map[OwnerFile(n) := Complete(RecordOf(n, a, false))]))
    && (a.phase.Releasing? ==> ReleaseOk(n, a, lock, live, a.phase.release))
    && (a.phase.Parked? ==> a.pending)
    && (a.pending ==> a.phase.Parked? || a.phase.Releasing?)
    && DiskOk(n, a, lock)
    && (live && Holding(a) ==> OwnsDirectory(n, lock))
  }

  lemma AcquireKeeps(windows: bool, n: Nonce, v: View, o: Outcome)
    requires AttemptOk(n, v.me, v.lock, true)
    requires !v.me.phase.Inspecting? && !v.me.phase.Releasing? && !v.me.phase.Running? && !v.me.phase.Parked?
    ensures var w := AcquireStep(windows, n, v, o); AttemptOk(n, w.me, w.lock, true)
  {
  }

  lemma ReleaseKeeps(n: Nonce, v: View, o: Outcome)
    requires AttemptOk(n, v.me, v.lock, true) && v.me.phase.Releasing?
    ensures var w := ReleaseStep(n, v, v.me.phase.release, o); AttemptOk(n, w.me, w.lock, true)
  {
  }

  lemma InspectKeeps(n: Nonce, v: View, o: Outcome)
    requires AttemptOk(n, v.me, v.lock, true) && v.me.phase.Inspecting?
    ensures var w := InspectStep(v, v.me.phase.inspection, o); AttemptOk(n, w.me, w.lock, true)
  {
  }

  lemma MyStepKeeps(windows: bool, n: Nonce, v: View, o: Outcome)
    requires AttemptOk(n, v.me, v.lock, true)
    ensures var w := MyStep(windows, n, v, o); AttemptOk(n, w.me, w.lock, true)
  {
    match v.me.phase
    case Inspecting(_) => InspectKeeps(n, v, o);
    case Releasing(_) => ReleaseKeeps(n, v, o);
    case Running =>
    case Parked =>
    case _ => AcquireKeeps(windows, n, v, o);
  }

  // ----- what a step of one attempt does to the files of another -----

  /** No file of `m` appeared or changed; some may be gone. */
  predicate Untouched(m: Nonce, lock: Node, lock': Node) {
    forall name | name in Files(lock') && !name.Stray? && name.nonce == m ::
      name in Files(lock) && Files(lock')[name] == Files(lock)[name]
  }

  lemma Frame(m: Nonce, a: Attempt, lock: Node, lock': Node, live: bool, live': bool)
    requires AttemptOk(m, a, lock, live) && (live' ==> live)
    requires Untouched(m, lock, lock')
    requires live' && Holding(a) ==> lock' == lock
    ensures AttemptOk(m, a, lock', live')
  {
  }

  /** The nonce whose files the next call of an inspection would unlink. */
  predicate Targets(phase: Phase, t: Nonce) {
    phase.Inspecting? && (phase.inspection == UnlinkTemp(t) || phase.inspection == UnlinkOwner(t))
  }

  lemma StepLeavesOthers(windows: bool, n: Nonce, v: View, o: Outcome, m: Nonce, a: Attempt, live: bool)
    requires n != m && AttemptOk(n, v.me, v.lock, true) && AttemptOk(m, a, v.lock, live)
    requires live && Holding(a) ==> !Targets(v.me.phase, m)
    ensures var w := MyStep(windows, n, v, o);
            Untouched(m, v.lock, w.lock) && (live && Holding(a) ==> w.lock == v.lock)
  {
  }

  // ----- the invariant of the system -----

  /** An owner whose record an inspection may remove: released on disk, or exited. */
  predicate Condemned(s: State, t: Nonce) {
    t in s.attempts && (s.attempts[t].published || !Live(s, t))
  }

  /** What an inspection by `local` has established about its target. */
  predicate KnowledgeOk(s: State, local: Identity, i: Inspection) {
    match i
    case StatEntries(t, _, _) => t in s.attempts || t in s.retired
    case ReadRecord(t, _) => t in s.attempts || t in s.retired
    case Probe(t, _, pid) =>
      if t in s.attempts then SameIdentity(s.attempts[t].identity, local) && pid == s.attempts[t].pid
      else Matched(s, local, t)
    case UnlinkTemp(t) => MayRemove(s, local, t)
    case UnlinkOwner(t) => MayRemove(s, local, t)
    case _ => true
  }

  predicate MayRemove(s: State, local: Identity, t: Nonce) {
    if t in s.attempts then SameIdentity(s.attempts[t].identity, local) && Condemned(s, t) else Matched(s, local, t)
  }

  /** A record from before the first modelled attempt: while it is on disk, it is of this identity. */
  predicate Matched(s: State, local: Identity, t: Nonce) {
    && t in s.retired
    && (OwnerFile(t) in Files(s.lock) ==>
          && Files(s.lock)[OwnerFile(t)].Complete?
          && SameIdentity(Files(s.lock)[OwnerFile(t)].owner.identity, local))
  }

  /** An attempt runs in a process of the realm and PID that its record claims. */
  predicate Rooted(s: State, n: Nonce)
    requires n in s.attempts
  {
    var a := s.attempts[n];
    && n !in s.retired
    && a.proc in s.processes
    && a.pid == s.processes[a.proc].pid
    && (a.identity.Known? ==> a.identity.realm == s.processes[a.proc].realm)
  }

  predicate NamesOk(s: State) {
    forall name | name in Files(s.lock) :: name.Stray? || name.nonce in s.attempts || name.nonce in s.retired
  }

  predicate Good(s: State, n: Nonce)
    requires n in s.attempts
  {
    && Rooted(s, n)
    && AttemptOk(n, s.attempts[n], s.lock, Live(s, n))
    && (s.attempts[n].phase.Inspecting? ==>
          KnowledgeOk(s, s.attempts[n].identity, s.attempts[n].phase.inspection))
  }

  predicate Inv(s: State) {
    NamesOk(s) && forall n | n in s.attempts :: Good(s, n)
  }

  lemma InitInv(s: State)
    requires Init(s)
    ensures Inv(s)
  {
  }

  /** Two live holders would each own the whole directory. */
  lemma HolderIsUnique(s: State, n: Nonce, m: Nonce)
    requires Inv(s) && Live(s, n) && Live(s, m) && Holding(s.attempts[n]) && Holding(s.attempts[m])
    ensures n == m
  {
    assert Good(s, n) && Good(s, m);
    assert OwnerFile(m) in s.lock.entries.Keys;
  }

  /** Facts that no step takes back. */
  predicate Grows(s: State, s': State) {
    && s'.retired == s.retired
    && (forall t | t in s.retired :: Untouched(t, s.lock, s'.lock))
    && (forall p | p in s.processes ::
          p in s'.processes && s'.processes[p].pid == s.processes[p].pid &&
          s'.processes[p].realm == s.processes[p].realm && (s'.processes[p].alive ==> s.processes[p].alive))
    && (forall t | t in s.attempts ::
          t in s'.attempts && s'.attempts[t].proc == s.attempts[t].proc &&
          s'.attempts[t].pid == s.attempts[t].pid && s'.attempts[t].identity == s.attempts[t].identity &&
          (s.attempts[t].published ==> s'.attempts[t].published))
    && (forall t | t in s'.attempts && t !in s.attempts :: t !in s.retired)
  }

  lemma KnowledgeStable(s: State, s': State, local: Identity, i: Inspection)
    requires Inv(s) && Grows(s, s') && KnowledgeOk(s, local, i)
    ensures KnowledgeOk(s', local, i)
  {
    assert forall t | t in s.attempts :: Good(s, t);
  }

  lemma OtherStaysGood(s: State, s': State, m: Nonce)
    requires Inv(s) && Grows(s, s') && m in s.attempts && s'.attempts[m] == s.attempts[m]
    requires Untouched(m, s.lock, s'.lock)
    requires Live(s', m) && Holding(s.attempts[m]) ==> s'.lock == s.lock
    ensures Good(s', m)
  {
    assert Good(s, m);
    Frame(m, s.attempts[m], s.lock, s'.lock, Live(s, m), Live(s', m));
    if s.attempts[m].phase.Inspecting? {
      KnowledgeStable(s, s', s.attempts[m].identity, s.attempts[m].phase.inspection);
    }
  }

  lemma MyStepKeepsNames(windows: bool, n: Nonce, v: View, o: Outcome)
    requires AttemptOk(n, v.me, v.lock, true)
    ensures var w := MyStep(windows, n, v, o);
            forall name | name in Files(w.lock) && (name.Stray? || name.nonce != n) ::
              name in Files(v.lock) && Files(w.lock)[name] == Files(v.lock)[name]
  {
  }

  predicate SameCall(a: Attempt, b: Attempt) {
    b.proc == a.proc && b.pid == a.pid && b.identity == a.identity && (a.published ==> b.published)
  }

  lemma AcquireSameCall(windows: bool, n: Nonce, v: View, o: Outcome)
    ensures SameCall(v.me, AcquireStep(windows, n, v, o).me)
  {
  }

  lemma InspectSameCall(v: View, i: Inspection, o: Outcome)
    ensures SameCall(v.me, InspectStep(v, i, o).me)
  {
  }

  lemma ReleaseSameCall(n: Nonce, v: View, r: Release, o: Outcome)
    ensures SameCall(v.me, ReleaseStep(n, v, r, o).me)
  {
  }

  lemma MyStepSameCall(windows: bool, n: Nonce, v: View, o: Outcome)
    ensures SameCall(v.me, MyStep(windows, n, v, o).me)
  {
    match v.me.phase
    case Inspecting(i) => InspectSameCall(v, i, o);
    case Releasing(r) => ReleaseSameCall(n, v, r, o);
    case Running =>
    case Parked =>
    case _ => AcquireSameCall(windows, n, v, o);
  }

  /** What an inspection learns at each call is true of the state it looked at. */
  lemma InspectionLearns(s: State, n: Nonce, o: Outcome)
    requires Inv(s) && Live(s, n) && MayAct(s, n, o) && s.attempts[n].phase.Inspecting?
    ensures var w := InspectStep(View(s.attempts[n], s.lock), s.attempts[n].phase.inspection, o);
            w.me.phase.Inspecting? ==> KnowledgeOk(s, w.me.identity, w.me.phase.inspection)
  {
    var me := s.attempts[n];
    assert Good(s, n);
    match me.phase.inspection
    case List =>
      assert forall t | s.lock.Directory? && Listed(s.lock.entries, t) :: OwnerFile(t) in OwnersIn(s.lock.entries);
    case ReadRecord(t, _) =>
      if t in s.attempts { assert Good(s, t); }
    case Probe(t, _, pid) =>
      if t in s.attempts { assert Good(s, t); }
    case _ =>
  }

  lemma ActGrows(s: State, n: Nonce, o: Outcome)
    requires Inv(s) && Enabled(s, Act(n, o))
    ensures Grows(s, Next(s, Act(n, o))) && NamesOk(Next(s, Act(n, o)))
  {
    var v := View(s.attempts[n], s.lock);
    assert Good(s, n);
    MyStepKeepsNames(s.windows, n, v, o);
    MyStepSameCall(s.windows, n, v, o);
  }

  lemma ActKeepsSelf(s: State, n: Nonce, o: Outcome)
    requires Inv(s) && Enabled(s, Act(n, o))
    ensures Good(Next(s, Act(n, o)), n)
  {
    var s' := Next(s, Act(n, o));
    var v := View(s.attempts[n], s.lock);
    ActGrows(s, n, o);
    assert Good(s, n);
    MyStepKeeps(s.windows, n, v, o);
    MyStepSameCall(s.windows, n, v, o);
    if v.me.phase.Inspecting? {
      InspectionLearns(s, n, o);
      var w := InspectStep(v, v.me.phase.inspection, o);
      if w.me.phase.Inspecting? {
        KnowledgeStable(s, s', w.me.identity, w.me.phase.inspection);
      }
    }
  }

  lemma ActKeepsOther(s: State, n: Nonce, o: Outcome, m: Nonce)
    requires Inv(s) && Enabled(s, Act(n, o)) && m in s.attempts && m != n
    ensures Good(Next(s, Act(n, o)), m)
  {
    var s' := Next(s, Act(n, o));
    ActGrows(s, n, o);
    assert Good(s, n) && Good(s, m);
    StepLeavesOthers(s.windows, n, View(s.attempts[n], s.lock), o, m, s.attempts[m], Live(s, m));
    OtherStaysGood(s, s', m);
  }

  lemma ActKeepsInv(s: State, n: Nonce, o: Outcome)
    requires Inv(s) && Enabled(s, Act(n, o))
    ensures Inv(Next(s, Act(n, o))) && Grows(s, Next(s, Act(n, o)))
  {
    ActGrows(s, n, o);
    ActKeepsSelf(s, n, o);
    forall m | m in s.attempts && m != n
      ensures Good(Next(s, Act(n, o)), m)
    {
      ActKeepsOther(s, n, o, m);
    }
  }

  lemma OtherActionsKeepInv(s: State, a: Action)
    requires Inv(s) && Enabled(s, a) && !a.Act?
    ensures Inv(Next(s, a)) && Grows(s, Next(s, a))
  {
    var s' := Next(s, a);
    assert Grows(s, s');
    forall m | m in s'.attempts
      ensures Good(s', m)
    {
      if m in s.attempts {
        assert Good(s, m);
        if !a.StatEntry? || a.nonce != m {
          OtherStaysGood(s, s', m);
        }
      }
    }
  }

  lemma StepKeepsInv(s: State, a: Action)
    requires Inv(s) && Enabled(s, a)
    ensures Inv(Next(s, a)) && Grows(s, Next(s, a))
  {
    if a.Act? {
      ActKeepsInv(s, a.nonce, a.outcome);
    } else {
      OtherActionsKeepInv(s, a);
    }
  }

  lemma {:induction false} RunKeepsInv(s: State, run: seq<Action>)
    requires Inv(s) && Possible(s, run)
    ensures Inv(After(s, run))
    decreases |run|
  {
    if run != [] {
      StepKeepsInv(s, run[0]);
      RunKeepsInv(Next(s, run[0]), run[1..]);
    }
  }

  lemma ReachableInv(t: State)
    requires Reachable(t)
    ensures Inv(t)
  {
    var s, run :| Init(s) && Possible(s, run) && After(s, run) == t;
    RunKeepsInv(s, run);
  }

  // ----- safety over all interleavings -----

  /** At most one live attempt is inside its callback, and its own unreleased record is then the
      only file in the canonical directory. */
  lemma MutualExclusion(t: State, n: Nonce, m: Nonce)
    requires Reachable(t)
    requires Live(t, n) && t.attempts[n].phase.Running?
    requires Live(t, m) && t.attempts[m].phase.Running?
    ensures n == m
    ensures t.lock == Directory(map[OwnerFile(n) := Complete(RecordOf(n, t.attempts[n], false))])
  {
    ReachableInv(t);
    assert Good(t, n) && Good(t, m);
    HolderIsUnique(t, n, m);
    assert t.lock.entries.Keys == {OwnerFile(n)};
  }

  /** A published record disappears only by its own attempt's release, or by an inspector of the
      same known realm once the record says released or its process has exited; a record that was
      there before any attempt, only by an inspector of the identity it names. */
  lemma RemovalIsBound(t: State, a: Action, m: Nonce)
    requires Inv(t) && Enabled(t, a)
    requires OwnerFile(m) in Files(t.lock) && OwnerFile(m) !in Files(Next(t, a).lock)
    ensures a.Act? && (m in t.attempts || m in t.retired)
    ensures m in t.attempts ==>
              a.nonce == m ||
              (Condemned(t, m) && SameIdentity(t.attempts[m].identity, t.attempts[a.nonce].identity))
    ensures m in t.retired ==>
              var file := Files(t.lock)[OwnerFile(m)];
              file.Complete? && SameIdentity(file.owner.identity, t.attempts[a.nonce].identity)
  {
    if m in t.attempts {
      assert Good(t, m);
    }
    if a.Act? && a.nonce != m {
      assert Good(t, a.nonce);
      LostOnlyByTarget(t.windows, a.nonce, View(t.attempts[a.nonce], t.lock), a.outcome, OwnerFile(m));
    }
  }

  lemma LostOnlyByTarget(windows: bool, n: Nonce, v: View, o: Outcome, name: Name)
    requires AttemptOk(n, v.me, v.lock, true) && !name.Stray? && name.nonce != n && name in Files(v.lock)
    requires name !in Files(MyStep(windows, n, v, o).lock)
    ensures Targets(v.me.phase, name.nonce)
  {
  }

  /** All of the directory's files survive but at most one. */
  predicate AllButOne(lock: Node, lock': Node) {
    && lock'.Directory?
    && forall x, y | x in Files(lock) && y in Files(lock) && x !in Files(lock') && y !in Files(lock') :: x == y
  }

  lemma MyStepKeepsDirectory(windows: bool, n: Nonce, v: View, o: Outcome)
    requires AttemptOk(n, v.me, v.lock, true) && Files(v.lock) != map[]
    ensures AllButOne(v.lock, MyStep(windows, n, v, o).lock)
  {
  }

  /** No step removes or replaces a populated directory, or more than one file of it. */
  lemma PopulatedDirectoryStays(t: State, a: Action)
    requires Reachable(t) && Enabled(t, a) && Files(t.lock) != map[]
    ensures AllButOne(t.lock, Next(t, a).lock)
  {
    ReachableInv(t);
    if a.Act? {
      assert Good(t, a.nonce);
      MyStepKeepsDirectory(t.windows, a.nonce, View(t.attempts[a.nonce], t.lock), a.outcome);
    }
  }

  // ----- releases -----

  /** Once its callback has ended, a live process's nonce is still being released, or listed as
      pending, or its record is gone; and a pending nonce is never inside a callback. */
  lemma ReleaseConservation(t: State, n: Nonce)
    requires Reachable(t) && Live(t, n)
    ensures var a := t.attempts[n];
            && (a.pending ==> !a.phase.Running? && Entered(a.phase))
            && (OwnerFile(n) in Files(t.lock) ==> a.phase.Running? || a.phase.Releasing? || a.pending)
  {
    ReachableInv(t);
    assert Good(t, n);
  }

  function Rank(phase: Phase): nat {
    match phase
    case Parked => 8
    case Releasing(r) =>
      (match r
       case ReadOwn => 7
       case CreateTemp => 6
       case WriteTemp => 5
       case Replace => 4
       case CleanTemp => 3
       case UnlinkOwn => 2
       case RmdirOwn => 1)
    case _ => 0
  }

  lemma ReleaseAdvances(n: Nonce, v: View)
    requires AttemptOk(n, v.me, v.lock, true) && (v.me.phase.Releasing? || v.me.phase.Parked?)
    ensures var w := MyStep(false, n, v, Proceed);
            && Rank(w.me.phase) < Rank(v.me.phase)
            && ((w.me.phase.Done? && !w.me.pending) || (w.me.phase.Releasing? && w.me.pending == v.me.pending))
  {
  }

  /** Every action in the run is an unrefused call of the release of `n`. */
  predicate OnlyReleases(run: seq<Action>, nonces: set<Nonce>) {
    forall i | 0 <= i < |run| :: run[i].Act? && run[i].outcome.Proceed? && run[i].nonce in nonces
  }

  /** Nothing but the canonical path and the progress of `n` differs. */
  predicate OnlyMoved(s: State, t: State, n: Nonce) {
    && n in s.attempts && n in t.attempts
    && t == s.(lock := t.lock, attempts := s.attempts[n := t.attempts[n]])
    && t.attempts[n].proc == s.attempts[n].proc
  }

  lemma OnlyMovedTwice(s: State, t: State, u: State, n: Nonce)
    requires OnlyMoved(s, t, n) && OnlyMoved(t, u, n)
    ensures OnlyMoved(s, u, n)
  {
  }

  lemma FlushStep(s: State, n: Nonce)
    requires Inv(s) && Live(s, n) && (s.attempts[n].phase.Releasing? || s.attempts[n].phase.Parked?)
    ensures Enabled(s, Act(n, Proceed)) && Inv(Next(s, Act(n, Proceed)))
    ensures OnlyMoved(s, Next(s, Act(n, Proceed)), n)
    ensures var b := Next(s, Act(n, Proceed)).attempts[n];
            && Rank(b.phase) < Rank(s.attempts[n].phase)
            && ((b.phase.Done? && !b.pending) || b.phase.Releasing?)
  {
    assert Good(s, n);
    ReleaseAdvances(n, View(s.attempts[n], s.lock));
    MyStepSameCall(s.windows, n, View(s.attempts[n], s.lock), Proceed);
    StepKeepsInv(s, Act(n, Proceed));
  }

  lemma FlushOne(s: State, n: Nonce) returns (run: seq<Action>)
    requires Inv(s) && Live(s, n) && (s.attempts[n].phase.Releasing? || s.attempts[n].phase.Parked?)
    ensures Possible(s, run) && Inv(After(s, run)) && OnlyReleases(run, {n})
    ensures OnlyMoved(s, After(s, run), n)
    ensures After(s, run).attempts[n].phase.Done? && !After(s, run).attempts[n].pending
    decreases Rank(s.attempts[n].phase)
  {
    var t := Next(s, Act(n, Proceed));
    FlushStep(s, n);
    if t.attempts[n].phase.Done? {
      run := [Act(n, Proceed)];
      PossibleCons(s, Act(n, Proceed), []);
      assert [Act(n, Proceed)] + [] == run;
    } else {
      var rest := FlushOne(t, n);
      run := [Act(n, Proceed)] + rest;
      PossibleCons(s, Act(n, Proceed), rest);
      OnlyMovedTwice(s, t, After(t, rest), n);
    }
  }

  lemma {:induction false} PossibleConcat(s: State, first: seq<Action>, second: seq<Action>)
    requires Possible(s, first) && Possible(After(s, first), second)
    ensures Possible(s, first + second) && After(s, first + second) == After(After(s, first), second)
    decreases |first|
  {
    if first == [] {
      assert first + second == second;
    } else {
      PossibleConcat(Next(s, first[0]), first[1..], second);
      assert (first + second)[1..] == first[1..] + second;
    }
  }

  function PendingOf(s: State, p: nat): set<Nonce> {
    set n | n in s.attempts && s.attempts[n].proc == p && s.attempts[n].pending
  }

  predicate IsDone(s: State, n: Nonce) {
    n in s.attempts && s.attempts[n].phase.Done?
  }

  lemma FlushShrinksPending(s: State, t: State, p: nat, n: Nonce)
    requires n in PendingOf(s, p) && OnlyMoved(s, t, n) && !t.attempts[n].pending
    ensures PendingOf(t, p) == PendingOf(s, p) - {n}
  {
  }

  lemma FlushAll(s: State, p: nat) returns (run: seq<Action>)
    requires Inv(s) && Alive(s, p)
    ensures Possible(s, run) && OnlyReleases(run, PendingOf(s, p))
    ensures PendingOf(After(s, run), p) == {}
    ensures forall n | n in PendingOf(s, p) :: IsDone(After(s, run), n)
    decreases PendingOf(s, p)
  {
    if PendingOf(s, p) == {} {
      run := [];
    } else {
      var n :| n in PendingOf(s, p);
      assert Good(s, n);
      var first := FlushOne(s, n);
      var t := After(s, first);
      FlushShrinksPending(s, t, p, n);
      var rest := FlushAll(t, p);
      PossibleConcat(s, first, rest);
      RunKeepsDone(t, rest, n);
      run := first + rest;
    }
  }

  /** A flush that meets no fault empties the pending table of its process, and no record of it
      is left on disk. */
  lemma FlushEmptiesPending(t: State, p: nat) returns (run: seq<Action>)
    requires Reachable(t) && Alive(t, p)
    ensures Possible(t, run) && OnlyReleases(run, PendingOf(t, p))
    ensures PendingOf(After(t, run), p) == {}
    ensures forall n | n in PendingOf(t, p) :: OwnerFile(n) !in Files(After(t, run).lock)
  {
    ReachableInv(t);
    run := FlushAll(t, p);
    RunKeepsInv(t, run);
    forall n | n in PendingOf(t, p)
      ensures OwnerFile(n) !in Files(After(t, run).lock)
    {
      assert IsDone(After(t, run), n) && Good(After(t, run), n);
    }
  }

  lemma {:induction false} RunKeepsDone(s: State, run: seq<Action>, n: Nonce)
    requires Inv(s) && Possible(s, run) && IsDone(s, n)
    ensures IsDone(After(s, run), n)
    decreases |run|
  {
    if run != [] {
      StepKeepsInv(s, run[0]);
      RunKeepsDone(Next(s, run[0]), run[1..], n);
    }
  }
}

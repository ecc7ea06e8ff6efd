/** The leased task list: the rules every operation follows, and the store-backed source. */
module Tasks {
  import opened Wrappers
  import Budgets

  datatype TaskState = Todo | Claimed | Done | Failed {
    predicate IsTerminal() { Done? || Failed? }
  }

  datatype TaskOutcome = Succeed | Fail {
    function ToState(): TaskState { if Succeed? then Done else Failed }
  }

  datatype Task = Task(
    id: string,
    instruction: string,
    state: TaskState,
    claimedBy: Option<string>,
    claimedUntil: Option<int>)

  datatype TaskError =
    | BlankIdentifier
    | LeaseInvalid
    | DuplicateId
    | LengthMismatch
    | NotFound
    | AlreadyTerminal(state: TaskState)
    | LeaseNotHeld
    | RunNotPermitted

  type TaskList = seq<Task>

  // ----- expiry and lookup -----

  predicate Lapsed(t: Task, now: real) {
    t.state.Claimed? && t.claimedUntil.Some? && t.claimedUntil.value as real <= now
  }

  function Unclaimed(t: Task): Task {
    t.(state := Todo, claimedBy := None, claimedUntil := None)
  }

  function ExpireOne(t: Task, now: real): Task {
    if Lapsed(t, now) then Unclaimed(t) else t
  }

  function Expire(ts: TaskList, now: real): (r: TaskList)
    ensures |r| == |ts| && forall k | 0 <= k < |ts| :: r[k] == ExpireOne(ts[k], now)
  {
    seq(|ts|, k requires 0 <= k < |ts| => ExpireOne(ts[k], now))
  }

  /** The position of the first claimable task, or the length when there is none. */
  function FirstTodo(ts: TaskList): (k: nat)
    ensures k <= |ts| && (forall j | 0 <= j < k :: !ts[j].state.Todo?) && (k < |ts| ==> ts[k].state.Todo?)
  {
    if ts == [] || ts[0].state.Todo? then 0 else 1 + FirstTodo(ts[1..])
  }

  function Locate(ts: TaskList, id: string): (k: nat)
    ensures k <= |ts| && (forall j | 0 <= j < k :: ts[j].id != id) && (k < |ts| ==> ts[k].id == id)
  {
    if ts == [] || ts[0].id == id then 0 else 1 + Locate(ts[1..], id)
  }

  function CountTodo(ts: TaskList): nat {
    if ts == [] then 0 else (if ts[0].state.Todo? then 1 else 0) + CountTodo(ts[1..])
  }

  predicate WholeLease(seconds: real) {
    seconds > 0.0 && seconds.Floor as real == seconds
  }

  /** An expiry is stored as an integer, truncated towards zero. */
  function Expiry(now: real, lease: real): int {
    Budgets.Truncate(now + lease)
  }

  // ----- the operations, on values -----

  /** The list an operation leaves, and what it answers. */
  datatype Outcome<T> = Outcome(tasks: TaskList, reply: Result<T, TaskError>)

  function Digits(n: nat): string {
    if n < 10 then [('0' as int + n) as char] else Digits(n / 10) + [('0' as int + n % 10) as char]
  }

  function NewTask(id: string, instruction: string): Task {
    Task(id, instruction, Todo, None, None)
  }

  /** The batch, appended one by one; the first blank or duplicate id refuses all of it. */
  function Appended(ts: TaskList, instructions: seq<string>, ids: Option<seq<string>>, from: nat)
    : (r: Result<TaskList, TaskError>)
    requires ids.Some? ==> |ids.value| == |instructions|
    requires from <= |instructions|
    ensures r.Ok? ==> ts <= r.value
    decreases |instructions| - from
  {
    if from == |instructions| then Ok(ts)
    else
      var id := if ids.Some? then ids.value[from] else "t-" + Digits(|ts| + 1);
      if id == "" then Err(BlankIdentifier)
      else if Locate(ts, id) < |ts| then Err(DuplicateId)
      else Appended(ts + [NewTask(id, instructions[from])], instructions, ids, from + 1)
  }

  function AddMany(ts: TaskList, instructions: seq<string>, ids: Option<seq<string>>): Outcome<seq<Task>> {
    if ids.Some? && |ids.value| != |instructions| then Outcome(ts, Err(LengthMismatch))
    else
      match Appended(ts, instructions, ids, 0)
      case Ok(all) => Outcome(all, Ok(all[|ts|..]))
      case Err(e) => Outcome(ts, Err(e))
  }

  function Claim(ts: TaskList, worker: string, lease: real, now: real): Outcome<Option<Task>> {
    if worker == "" then Outcome(ts, Err(BlankIdentifier))
    else if !WholeLease(lease) then Outcome(ts, Err(LeaseInvalid))
    else
      var es := Expire(ts, now);
      var k := FirstTodo(es);
      if k == |es| then Outcome(es, Ok(None))
      else
        var taken := es[k].(state := Claimed, claimedBy := Some(worker), claimedUntil := Some(Expiry(now, lease)));
        Outcome(es[k := taken], Ok(Some(taken)))
  }

  /** Why `worker` may not act on the claim of `t`. */
  function Objection(t: Task, worker: string): Option<TaskError> {
    if t.state.IsTerminal() then Some(AlreadyTerminal(t.state))
    else if !t.state.Claimed? then Some(LeaseNotHeld)
    else if t.claimedBy != Some(worker) then Some(LeaseNotHeld)
    else None
  }

  /** A refusal raises before the write, so the expiries it saw are not stored. */
  function Release(ts: TaskList, id: string, worker: string, outcome: TaskOutcome, now: real): Outcome<Task> {
    if worker == "" then Outcome(ts, Err(BlankIdentifier))
    else
      var es := Expire(ts, now);
      var k := Locate(es, id);
      if k == |es| then Outcome(ts, Err(NotFound))
      else
        match Objection(es[k], worker)
        case Some(e) => Outcome(ts, Err(e))
        case None =>
          var settled := Unclaimed(es[k]).(state := outcome.ToState());
          Outcome(es[k := settled], Ok(settled))
  }

  /** How long the run lets its worker hold on: the lease, cut to the run's remaining time. */
  function Granted(lease: real, spend: Budgets.Spend, budget: Budgets.Budget, elapsed: real): Result<real, TaskError> {
    if Budgets.Exhaustion(spend, budget, elapsed).Some? then Err(RunNotPermitted)
    else
      match Budgets.RemainingSeconds(budget, elapsed)
      case None => Ok(lease)
      case Some(left) =>
        if left <= 0 then Err(RunNotPermitted)
        else Ok(if (left as real) < lease then left as real else lease)
  }

  function ExtendLease(ts: TaskList, id: string, worker: string, lease: real, spend: Budgets.Spend,
                       budget: Budgets.Budget, elapsed: real, now: real): Outcome<Task>
  {
    if worker == "" then Outcome(ts, Err(BlankIdentifier))
    else if !WholeLease(lease) then Outcome(ts, Err(LeaseInvalid))
    else
      match Granted(lease, spend, budget, elapsed)
      case Err(e) => Outcome(ts, Err(e))
      case Ok(granted) =>
        var es := Expire(ts, now);
        var k := Locate(es, id);
        if k == |es| then Outcome(ts, Err(NotFound))
        else
          match Objection(es[k], worker)
          case Some(e) => Outcome(ts, Err(e))
          case None =>
            var held := es[k].(claimedUntil := Some(Expiry(now, granted)));
            Outcome(es[k := held], Ok(held))
  }

  function Pending(ts: TaskList, now: real): nat {
    CountTodo(Expire(ts, now))
  }

  // ----- leases -----

  /** Whole seconds, and at least one. */
  lemma WholeLeases(n: int, lease: real)
    requires n as real <= lease < n as real + 1.0
    ensures WholeLease(lease) <==> n >= 1 && lease == n as real
  {
    FloorIs(n, lease);
  }

  lemma FloorIs(n: int, x: real)
    requires n as real <= x < n as real + 1.0
    ensures x.Floor == n
  {
    var m := x.Floor;
    assert m as real <= x < m as real + 1.0;
    assert m as real < (n + 1) as real && n as real < (m + 1) as real;
  }

  /** What a grant made at `now` for `lease` seconds is stored as: within a second of their sum, on the
      side of zero, and after `now`. */
  predicate Grants(now: real, lease: real, until: int) {
    && now < until as real
    && now + lease - 1.0 < until as real < now + lease + 1.0
    && (until as real <= now + lease <==> now + lease >= 0.0 || (now + lease).Floor as real == now + lease)
  }

  lemma ExpiryGrants(now: real, lease: real)
    requires WholeLease(lease)
    ensures Grants(now, lease, Expiry(now, lease))
  {
    GrantLasts(now, lease);
  }

  /** A grant ends after the moment it is made, whatever the truncation; and no later than the lease
      says, exactly when truncation rounds down. */
  lemma GrantLasts(now: real, lease: real)
    requires WholeLease(lease)
    ensures now < Expiry(now, lease) as real
    ensures Expiry(now, lease) as real <= now + lease <==>
            now + lease >= 0.0 || (now + lease).Floor as real == now + lease
  {
    var x := now + lease;
    var n := lease.Floor;
    assert n >= 1;
    assert x.Floor == now.Floor + n;
    if x < 0.0 {
      assert Expiry(now, lease) == -((-x).Floor);
      assert Expiry(now, lease) >= x.Floor;
    }
  }

  /** Before the epoch a grant can end after the lease says. */
  lemma GrantCanOutlastLease()
    ensures Expiry(-2.5, 1.0) as real > -2.5 + 1.0
  {
    assert (2.5 - 1.0).Floor == 1;
  }

  // ----- who is answered what -----

  /** A claim takes the first task that is free or whose lease is over, in the worker's name and for the
      lease asked for. */
  lemma ClaimAnswers(ts: TaskList, worker: string, lease: real, now: real, k: nat)
    requires k <= |ts|
    requires forall j | 0 <= j < k :: !ts[j].state.Todo? && !Lapsed(ts[j], now)
    requires k < |ts| ==> ts[k].state.Todo? || Lapsed(ts[k], now)
    ensures var reply := Claim(ts, worker, lease, now).reply;
            if worker == "" then reply == Err(BlankIdentifier)
            else if !WholeLease(lease) then reply == Err(LeaseInvalid)
            else if k == |ts| then reply == Ok(None)
            else
              && reply.Ok? && reply.value.Some? && reply.value.value.claimedUntil.Some?
              && var until := reply.value.value.claimedUntil.value;
                 && reply.value.value == Task(ts[k].id, ts[k].instruction, Claimed, Some(worker), Some(until))
                 && Grants(now, lease, until)
  {
    if worker != "" && WholeLease(lease) {
      ExpiryGrants(now, lease);
      assert FirstTodo(Expire(ts, now)) == k by {
        hide Lapsed;
      }
    }
    hide Expiry, Grants, WholeLease, Lapsed;
  }

  /** Whether `worker` still holds the task. */
  predicate Holds(t: Task, worker: string, now: real) {
    t.state.Claimed? && t.claimedBy == Some(worker) && !(t.claimedUntil.Some? && t.claimedUntil.value as real <= now)
  }

  /** What stops a worker who names this task: it is terminal, or not his. */
  function Stops(t: Task, worker: string, now: real): Option<TaskError> {
    if t.state == Done || t.state == Failed then Some(AlreadyTerminal(t.state))
    else if Holds(t, worker, now) then None
    else Some(LeaseNotHeld)
  }

  predicate StandsFirst(ts: TaskList, id: string, k: nat) {
    && k <= |ts|
    && (forall j | 0 <= j < k :: ts[j].id != id)
    && (k < |ts| ==> ts[k].id == id)
  }

  lemma ObjectionIs(ts: TaskList, id: string, worker: string, now: real, k: nat)
    requires StandsFirst(ts, id, k)
    ensures Locate(Expire(ts, now), id) == k
    ensures k < |ts| ==> Objection(Expire(ts, now)[k], worker) == Stops(ts[k], worker, now)
    ensures k < |ts| && Holds(ts[k], worker, now) ==> Expire(ts, now)[k] == ts[k]
  {
  }

  /** A release settles the task exactly for the worker who holds it, as done or as failed. */
  lemma ReleaseAnswers(ts: TaskList, id: string, worker: string, outcome: TaskOutcome, now: real, k: nat)
    requires StandsFirst(ts, id, k)
    ensures var o := Release(ts, id, worker, outcome, now);
            if worker == "" then o.reply == Err(BlankIdentifier)
            else if k == |ts| then o.reply == Err(NotFound)
            else if Stops(ts[k], worker, now).Some? then o.reply == Err(Stops(ts[k], worker, now).value)
            else
              && o.reply == Ok(Task(id, ts[k].instruction, if outcome.Succeed? then Done else Failed, None, None))
              && o.tasks == Expire(ts, now)[k := o.reply.value]
  {
    ObjectionIs(ts, id, worker, now, k);
    hide Expire, Objection, Locate, Stops;
  }

  /** Whole seconds that the run still has, or none when it may not go on. */
  predicate MayHold(spend: Budgets.Spend, budget: Budgets.Budget, elapsed: real) {
    && Budgets.Exhaustion(spend, budget, elapsed).None?
    && (budget.maxSeconds.Some? ==> budget.maxSeconds.value as real - elapsed >= 1.0)
  }

  /** An extension moves only the expiry, exactly for the worker who holds the task, and while his run
      has a whole second left; it is for the lease asked for, or for the whole seconds the run has. */
  lemma ExtensionAnswers(ts: TaskList, id: string, worker: string, lease: real, spend: Budgets.Spend,
                         budget: Budgets.Budget, elapsed: real, now: real, k: nat)
    requires StandsFirst(ts, id, k)
    ensures var o := ExtendLease(ts, id, worker, lease, spend, budget, elapsed, now);
            if worker == "" then o.reply == Err(BlankIdentifier)
            else if !WholeLease(lease) then o.reply == Err(LeaseInvalid)
            else if !MayHold(spend, budget, elapsed) then o.reply == Err(RunNotPermitted)
            else if k == |ts| then o.reply == Err(NotFound)
            else if Stops(ts[k], worker, now).Some? then o.reply == Err(Stops(ts[k], worker, now).value)
            else
              && o.reply.Ok? && o.reply.value.claimedUntil.Some?
              && var until := o.reply.value.claimedUntil.value;
                 && o.reply == Ok(ts[k].(claimedUntil := Some(until)))
                 && o.tasks == Expire(ts, now)[k := o.reply.value]
                 && Grants(now,
                           if budget.maxSeconds.None? then lease
                           else Cut(lease, budget.maxSeconds.value as real - elapsed), until)
  {
    ObjectionIs(ts, id, worker, now, k);
    GrantedIs(lease, spend, budget, elapsed);
    var g := Granted(lease, spend, budget, elapsed);
    if WholeLease(lease) && g.Ok? {
      ExpiryGrants(now, g.value);
    }
    hide Expire, Objection, Locate, Stops, Expiry, Granted, Cut, MayHold, Grants, WholeLease;
  }

  lemma GrantedIs(lease: real, spend: Budgets.Spend, budget: Budgets.Budget, elapsed: real)
    ensures var g := Granted(lease, spend, budget, elapsed);
            if !MayHold(spend, budget, elapsed) then g == Err(RunNotPermitted)
            else
              && g == Ok(if budget.maxSeconds.None? then lease
                         else Cut(lease, budget.maxSeconds.value as real - elapsed))
              && (WholeLease(lease) ==> WholeLease(g.value))
  {
    hide Budgets.Exhaustion;
  }

  // ----- what a batch adds -----

  /** The number that a string of digits writes. */
  function Number(s: string): int {
    if s == "" then 0 else 10 * Number(s[..|s| - 1]) + (s[|s| - 1] as int - '0' as int)
  }

  /** A generated id ends in its position as a decimal number, without leading zeros. */
  lemma {:induction false} DigitsAreDecimal(n: nat)
    ensures Digits(n) != "" && Number(Digits(n)) == n
    ensures forall i | 0 <= i < |Digits(n)| :: '0' <= Digits(n)[i] <= '9'
    ensures n > 0 ==> Digits(n)[0] != '0'
  {
    if n >= 10 {
      DigitsAreDecimal(n / 10);
      assert Digits(n)[..|Digits(n)| - 1] == Digits(n / 10);
    } else {
      assert Digits(n)[..0] == "";
    }
  }

  /** The ids a batch is given, or is numbered by when it is given none. */
  function BatchIds(ts: TaskList, count: nat, ids: Option<seq<string>>): (r: seq<string>)
    requires ids.Some? ==> |ids.value| == count
    ensures |r| == count
    ensures forall i | 0 <= i < count :: r[i] == if ids.Some? then ids.value[i] else "t-" + Digits(|ts| + i + 1)
  {
    if ids.Some? then ids.value else seq(count, i requires 0 <= i < count => "t-" + Digits(|ts| + i + 1))
  }

  /** The id at `i` may be added behind the list and those before it. */
  predicate IsNew(ts: TaskList, given: seq<string>, i: nat)
    requires i < |given|
  {
    given[i] != "" && (forall t | t in ts :: t.id != given[i]) && forall j | 0 <= j < i :: given[j] != given[i]
  }

  /** The first id that may not be added says why. */
  predicate Faults(ts: TaskList, given: seq<string>, e: TaskError) {
    exists i | 0 <= i < |given| ::
      && !IsNew(ts, given, i)
      && (forall j | 0 <= j < i :: IsNew(ts, given, j))
      && e == if given[i] == "" then BlankIdentifier else DuplicateId
  }

  lemma {:induction false} AppendedAre(ts: TaskList, instructions: seq<string>, ids: Option<seq<string>>, from: nat,
                                       all: TaskList)
    requires ids.Some? ==> |ids.value| == |instructions|
    requires from <= |instructions|
    requires var given := BatchIds(ts, |instructions|, ids);
             && (forall i | 0 <= i < from :: IsNew(ts, given, i))
             && all == ts + Listed(given, instructions, from)
    ensures var given := BatchIds(ts, |instructions|, ids);
            var r := Appended(all, instructions, ids, from);
            && (r.Ok? <==> forall i | 0 <= i < |given| :: IsNew(ts, given, i))
            && (r.Ok? ==> r.value == ts + Listed(given, instructions, |given|))
            && (r.Err? ==> Faults(ts, given, r.error))
    decreases |instructions| - from
  {
    var given := BatchIds(ts, |instructions|, ids);
    if from < |instructions| {
      IsNewTells(ts, given, instructions, from);
      AppendedOnce(all, instructions, ids, from, given[from]);
      ListedNext(ts, given, instructions, from);
      hide Appended, IsNew, Locate, BatchIds, Listed, Faults;
      if IsNew(ts, given, from) {
        AppendedAre(ts, instructions, ids, from + 1, all + [NewTask(given[from], instructions[from])]);
      } else {
        FaultsHere(ts, given, from);
      }
    }
  }

  lemma ListedNext(ts: TaskList, given: seq<string>, instructions: seq<string>, from: nat)
    requires from < |given| == |instructions|
    ensures ts + Listed(given, instructions, from) + [NewTask(given[from], instructions[from])] ==
            ts + Listed(given, instructions, from + 1)
    ensures |ts + Listed(given, instructions, from)| == |ts| + from
  {
  }

  lemma FaultsHere(ts: TaskList, given: seq<string>, i: nat)
    requires i < |given| && !IsNew(ts, given, i) && forall j | 0 <= j < i :: IsNew(ts, given, j)
    ensures Faults(ts, given, if given[i] == "" then BlankIdentifier else DuplicateId)
  {
    hide IsNew;
  }

  lemma {:induction false} AppendedOnce(all: TaskList, instructions: seq<string>, ids: Option<seq<string>>, from: nat,
                                        id: string)
    requires ids.Some? ==> |ids.value| == |instructions|
    requires from < |instructions| && id == if ids.Some? then ids.value[from] else "t-" + Digits(|all| + 1)
    ensures Appended(all, instructions, ids, from) ==
            if id == "" then Err(BlankIdentifier)
            else if Locate(all, id) < |all| then Err(DuplicateId)
            else Appended(all + [NewTask(id, instructions[from])], instructions, ids, from + 1)
  {
  }

  lemma IsNewTells(ts: TaskList, given: seq<string>, instructions: seq<string>, from: nat)
    requires from < |given| == |instructions|
    ensures var all := ts + Listed(given, instructions, from);
            IsNew(ts, given, from) <==> given[from] != "" && Locate(all, given[from]) == |all|
  {
    var added := Listed(given, instructions, from);
    var all := ts + added;
    assert forall j | 0 <= j < from :: all[|ts| + j] == added[j];
    if Locate(all, given[from]) == |all| {
      forall t | t in ts
        ensures t.id != given[from]
      {
        var k :| 0 <= k < |ts| && ts[k] == t;
        assert all[k] == t;
      }
    }
  }

  /** The first `n` of a batch, as they are stored. */
  function Listed(given: seq<string>, instructions: seq<string>, n: nat): (r: TaskList)
    requires n <= |given| == |instructions|
    ensures |r| == n
    ensures forall i | 0 <= i < n :: r[i] == Task(given[i], instructions[i], Todo, None, None)
  {
    seq(n, i requires 0 <= i < n => Task(given[i], instructions[i], Todo, None, None))
  }

  /** A batch lands whole, in order and free to take, or not at all: exactly when none of its ids is
      blank, used before in the list or in the batch. */
  lemma {:induction false} BatchLandsWhole(ts: TaskList, instructions: seq<string>, ids: Option<seq<string>>)
    requires ids.Some? ==> |ids.value| == |instructions|
    ensures var given := BatchIds(ts, |instructions|, ids);
            var o := AddMany(ts, instructions, ids);
            && (o.reply.Ok? <==> forall i | 0 <= i < |given| :: IsNew(ts, given, i))
            && (o.reply.Ok? ==>
                  && |o.reply.value| == |instructions|
                  && o.tasks == ts + o.reply.value
                  && forall i | 0 <= i < |given| ::
                       o.reply.value[i] == Task(given[i], instructions[i], Todo, None, None))
            && (o.reply.Err? ==>
                  o.tasks == ts && Faults(ts, given, o.reply.error))
  {
    var given := BatchIds(ts, |instructions|, ids);
    assert ts + Listed(given, instructions, 0) == ts;
    AppendedAre(ts, instructions, ids, 0, ts);
    hide IsNew, Faults;
    assert (ts + Listed(given, instructions, |given|))[|ts|..] == Listed(given, instructions, |given|);
  }

  // ----- extensions and the run -----

  /** How far a clock stands before its next whole second. */
  function ToNextSecond(now: real): real {
    (-now) - (-now).Floor as real
  }

  /** With both clocks read together, an extension ends after it is made and no later than the run
      must stop, except before the epoch, when it takes every whole second the run has left and the
      fraction that is left over does not reach the clock's next second. */
  lemma ExtensionEndsWithRun(ts: TaskList, id: string, worker: string, lease: real, spend: Budgets.Spend,
                             budget: Budgets.Budget, started: real, now: real)
    requires budget.maxSeconds.Some?
    ensures var r := ExtendLease(ts, id, worker, lease, spend, budget, now - started, now);
            var left := budget.maxSeconds.value as real - (now - started);
            r.reply.Ok? ==>
              && r.reply.value.claimedUntil.Some?
              && now < r.reply.value.claimedUntil.value as real
              && (r.reply.value.claimedUntil.value as real <= started + budget.maxSeconds.value as real <==>
                    || now + Cut(lease, left) >= 0.0
                    || lease < left.Floor as real
                    || ToNextSecond(now) <= left - left.Floor as real)
  {
    var elapsed, left := now - started, budget.maxSeconds.value as real - (now - started);
    var r := ExtendLease(ts, id, worker, lease, spend, budget, elapsed, now);
    if r.reply.Ok? {
      ExtensionGrants(ts, id, worker, lease, spend, budget, elapsed, now);
      GrantAgainstRun(now, left, lease);
      hide ExtendLease, Expiry, ToNextSecond, WholeLease;
    }
  }

  /** The lease a run still has whole seconds for. */
  function Cut(lease: real, left: real): real {
    if lease < left.Floor as real then lease else left.Floor as real
  }

  lemma ExtensionGrants(ts: TaskList, id: string, worker: string, lease: real, spend: Budgets.Spend,
                        budget: Budgets.Budget, elapsed: real, now: real)
    requires budget.maxSeconds.Some? && ExtendLease(ts, id, worker, lease, spend, budget, elapsed, now).reply.Ok?
    ensures var left := budget.maxSeconds.value as real - elapsed;
            && WholeLease(lease) && left.Floor >= 1
            && ExtendLease(ts, id, worker, lease, spend, budget, elapsed, now).reply.value.claimedUntil
               == Some(Expiry(now, Cut(lease, left)))
  {
    hide Expire, Locate, Objection, Expiry;
  }

  lemma GrantAgainstRun(now: real, left: real, lease: real)
    requires WholeLease(lease) && left.Floor >= 1
    ensures var g := Cut(lease, left);
            && now < Expiry(now, g) as real
            && (Expiry(now, g) as real <= now + left <==>
                  now + g >= 0.0 || lease < left.Floor as real || ToNextSecond(now) <= left - left.Floor as real)
  {
    var g := Cut(lease, left);
    GrantLasts(now, g);
    WholeTruncation(now, g);
    if lease < left.Floor as real {
      assert lease + 1.0 <= left.Floor as real by {
        assert lease.Floor < left.Floor;
      }
    }
    hide Expiry;
  }

  /** Whole seconds added to a clock: truncation floors the sum, or before the epoch lifts it to the
      clock's next second. */
  lemma WholeTruncation(now: real, lease: real)
    requires WholeLease(lease)
    ensures now + lease >= 0.0 ==> Expiry(now, lease) as real <= now + lease
    ensures now + lease < 0.0 ==> Expiry(now, lease) as real == now + ToNextSecond(now) + lease
  {
    if now + lease < 0.0 {
      var n := lease.Floor;
      assert (-(now + lease)).Floor == (-now).Floor - n;
    }
  }

  /** A run that began at -2.5 and may take one second: its worker may hold on past its end. */
  lemma ExtensionCanOutlastRun(spend: Budgets.Spend, budget: Budgets.Budget)
    requires budget.maxSeconds == Some(1) && Budgets.Exhaustion(spend, budget, 0.0).None?
    ensures var ts := [Task("t-1", "go", Claimed, Some("w"), Some(5))];
            var r := ExtendLease(ts, "t-1", "w", 1.0, spend, budget, 0.0, -2.5);
            r.reply.Ok? && r.reply.value.claimedUntil == Some(-1) && -1.0 > -2.5 + 1.0
  {
    var ts := [Task("t-1", "go", Claimed, Some("w"), Some(5))];
    assert Locate(Expire(ts, -2.5), "t-1") == 0;
    assert (2.5 - 1.0).Floor == 1;
  }

  // ----- any operation, and runs of them -----

  datatype Op =
    | OpAdd(instructions: seq<string>, ids: Option<seq<string>>)
    | OpClaim(worker: string, lease: real)
    | OpRelease(id: string, worker: string, outcome: TaskOutcome)
    | OpExtend(id: string, worker: string, lease: real, spend: Budgets.Spend, budget: Budgets.Budget, elapsed: real)
    | OpPending
    | OpRecords
    | OpTick  // an eager machine's own expiry, stored at once

  datatype Reply =
    | Added(tasks: seq<Task>)
    | Took(task: Task)
    | NothingLeft
    | Settled(task: Task)
    | Extended(task: Task)
    | Count(n: nat)
    | Listing(tasks: seq<Task>)
    | Ticked
    | Refused(error: TaskError)

  datatype Event = Event(op: Op, now: real)

  function Perform(ts: TaskList, e: Event): (TaskList, Reply) {
    match e.op
    case OpAdd(instructions, ids) =>
      var o := AddMany(ts, instructions, ids);
      (o.tasks, if o.reply.Ok? then Added(o.reply.value) else Refused(o.reply.error))
    case OpClaim(worker, lease) =>
      var o := Claim(ts, worker, lease, e.now);
      (o.tasks,
       if o.reply.Err? then Refused(o.reply.error)
       else if o.reply.value.None? then NothingLeft
       else Took(o.reply.value.value))
    case OpRelease(id, worker, outcome) =>
      var o := Release(ts, id, worker, outcome, e.now);
      (o.tasks, if o.reply.Ok? then Settled(o.reply.value) else Refused(o.reply.error))
    case OpExtend(id, worker, lease, spend, budget, elapsed) =>
      var o := ExtendLease(ts, id, worker, lease, spend, budget, elapsed, e.now);
      (o.tasks, if o.reply.Ok? then Extended(o.reply.value) else Refused(o.reply.error))
    case OpPending => (ts, Count(Pending(ts, e.now)))
    case OpRecords => (ts, Listing(Expire(ts, e.now)))
    case OpTick => (Expire(ts, e.now), Ticked)
  }

  function Replies(ts: TaskList, es: seq<Event>): seq<Reply>
    decreases |es|
  {
    if es == [] then [] else [Perform(ts, es[0]).1] + Replies(Perform(ts, es[0]).0, es[1..])
  }

  /** The clock never runs backwards, from `t` on. */
  predicate Monotone(t: real, es: seq<Event>)
    decreases |es|
  {
    es == [] || (t <= es[0].now && Monotone(es[0].now, es[1..]))
  }

  // ----- lazy expiry is eager expiry -----

  lemma ExpireTwice(ts: TaskList, t1: real, t2: real)
    requires t1 <= t2
    ensures Expire(Expire(ts, t1), t2) == Expire(ts, t2)
  {
  }

  /** Two lists that differ at most in expiries nobody has stored yet. */
  predicate Same(ts: TaskList, us: TaskList, now: real) {
    Expire(ts, now) == Expire(us, now)
  }

  lemma SameLater(ts: TaskList, us: TaskList, t1: real, t2: real)
    requires Same(ts, us, t1) && t1 <= t2
    ensures Same(ts, us, t2)
  {
    ExpireTwice(ts, t1, t2);
    ExpireTwice(us, t1, t2);
  }

  function Ids(ts: TaskList): (r: seq<string>)
    ensures |r| == |ts| && forall k | 0 <= k < |ts| :: r[k] == ts[k].id
  {
    seq(|ts|, k requires 0 <= k < |ts| => ts[k].id)
  }

  lemma SameIds(ts: TaskList, us: TaskList, now: real)
    requires Same(ts, us, now)
    ensures Ids(ts) == Ids(us)
  {
    assert Ids(Expire(ts, now)) == Ids(ts);
    assert Ids(Expire(us, now)) == Ids(us);
  }

  lemma {:induction false} AppendedSame(ts: TaskList, us: TaskList, added: TaskList, instructions: seq<string>,
                                        ids: Option<seq<string>>, from: nat)
    requires ids.Some? ==> |ids.value| == |instructions|
    requires from <= |instructions| && Ids(ts) == Ids(us)
    requires forall t | t in added :: t.state.Todo?
    ensures var r, q := Appended(ts + added, instructions, ids, from), Appended(us + added, instructions, ids, from);
            if r.Err? then r == q
            else
              q.Ok? && r.value[|ts|..] == q.value[|us|..] && ts <= r.value && us <= q.value &&
              forall t | t in r.value[|ts|..] :: t.state.Todo?
    decreases |instructions| - from
  {
    assert |ts| == |us|;
    if from < |instructions| {
      var id := if ids.Some? then ids.value[from] else "t-" + Digits(|ts + added| + 1);
      assert Ids(ts + added) == Ids(ts) + Ids(added);
      assert Ids(us + added) == Ids(us) + Ids(added);
      LocateSame(ts + added, us + added, id);
      AppendedOnce(ts + added, instructions, ids, from, id);
      AppendedOnce(us + added, instructions, ids, from, id);
      hide Appended, Locate, Ids;
      var task := NewTask(id, instructions[from]);
      assert ts + added + [task] == ts + (added + [task]);
      assert us + added + [task] == us + (added + [task]);
      AppendedSame(ts, us, added + [task], instructions, ids, from + 1);
    }
  }

  lemma LocateSame(ts: TaskList, us: TaskList, id: string)
    requires Ids(ts) == Ids(us)
    ensures Locate(ts, id) == Locate(us, id)
  {
    assert |ts| == |us|;
    assert forall k | 0 <= k < |ts| :: Ids(ts)[k] == Ids(us)[k];
  }

  lemma SameAfterAppend(ts: TaskList, us: TaskList, more: TaskList, now: real)
    requires Same(ts, us, now)
    ensures Same(ts + more, us + more, now)
  {
    assert Expire(ts + more, now) == Expire(ts, now) + Expire(more, now);
    assert Expire(us + more, now) == Expire(us, now) + Expire(more, now);
  }

  lemma {:induction false} AddSame(ts: TaskList, us: TaskList, instructions: seq<string>, ids: Option<seq<string>>,
                                   now: real)
    requires Same(ts, us, now)
    ensures AddMany(ts, instructions, ids).reply == AddMany(us, instructions, ids).reply
    ensures Same(AddMany(ts, instructions, ids).tasks, AddMany(us, instructions, ids).tasks, now)
  {
    SameIds(ts, us, now);
    hide Ids, Appended, Same;
    if ids.None? || |ids.value| == |instructions| {
      BatchSame(ts, us, instructions, ids);
      var r, q := Appended(ts, instructions, ids, 0), Appended(us, instructions, ids, 0);
      if r.Ok? {
        BothLonger(ts, us, r.value, q.value, now);
      }
    }
  }

  lemma {:induction false} BatchSame(ts: TaskList, us: TaskList, instructions: seq<string>, ids: Option<seq<string>>)
    requires Ids(ts) == Ids(us)
    requires ids.Some? ==> |ids.value| == |instructions|
    ensures var r, q := Appended(ts, instructions, ids, 0), Appended(us, instructions, ids, 0);
            if r.Err? then r == q
            else q.Ok? && r.value[|ts|..] == q.value[|us|..] && ts <= r.value && us <= q.value
  {
    hide Ids, Appended;
    AppendedSame(ts, us, [], instructions, ids, 0);
    assert ts + [] == ts && us + [] == us;
  }

  lemma {:induction false} BothLonger(ts: TaskList, us: TaskList, more: TaskList, also: TaskList, now: real)
    requires Same(ts, us, now) && ts <= more && us <= also && more[|ts|..] == also[|us|..]
    ensures Same(more, also, now)
  {
    hide Same;
    SameAfterAppend(ts, us, more[|ts|..], now);
    assert more == ts + more[|ts|..] && also == us + also[|us|..];
  }

  /** No operation can tell whether an earlier expiry was stored. */
  lemma OperationsCommuteWithExpiry(ts: TaskList, us: TaskList, e: Event)
    requires Same(ts, us, e.now)
    ensures Perform(ts, e).1 == Perform(us, e).1
    ensures Same(Perform(ts, e).0, Perform(us, e).0, e.now)
  {
    if e.op.OpAdd? {
      AddSame(ts, us, e.op.instructions, e.op.ids, e.now);
    }
    ExpireTwice(ts, e.now, e.now);
    ExpireTwice(us, e.now, e.now);
  }

  function WithoutTicks(es: seq<Event>): seq<Event> {
    if es == [] then []
    else if es[0].op.OpTick? then WithoutTicks(es[1..])
    else [es[0]] + WithoutTicks(es[1..])
  }

  function Answers(rs: seq<Reply>): seq<Reply> {
    if rs == [] then []
    else if rs[0].Ticked? then Answers(rs[1..])
    else [rs[0]] + Answers(rs[1..])
  }

  /** A machine whose leases lapse on time, at whatever moments it ticks, answers exactly what the
      lazy one does. */
  lemma {:induction false} LazyRefinesEager(ts: TaskList, us: TaskList, t: real, es: seq<Event>)
    requires Monotone(t, es) && Same(ts, us, t)
    ensures Answers(Replies(ts, es)) == Replies(us, WithoutTicks(es))
    decreases |es|
  {
    if es != [] {
      var e := es[0];
      SameLater(ts, us, t, e.now);
      OperationsCommuteWithExpiry(ts, us, e);
      if e.op.OpTick? {
        ExpireTwice(ts, e.now, e.now);
        LazyRefinesEager(Perform(ts, e).0, us, e.now, es[1..]);
      } else {
        LazyRefinesEager(Perform(ts, e).0, Perform(us, e).0, e.now, es[1..]);
        assert Replies(ts, es)[1..] == Replies(Perform(ts, e).0, es[1..]);
        assert WithoutTicks(es)[1..] == WithoutTicks(es[1..]);
      }
    }
  }
}

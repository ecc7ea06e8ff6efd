/** The store-backed task source, and how it drains. */
module TaskSource {
  import opened Wrappers
  import opened Tasks
  import Budgets

  /** `_expire`: returns every lapsed claim to `todo` and reports whether anything moved. */
  method ExpireAll(ts: TaskList, now: real) returns (r: TaskList, moved: bool)
    ensures r == Expire(ts, now)
    ensures moved <==> exists k | 0 <= k < |ts| :: Lapsed(ts[k], now)
    ensures !moved ==> r == ts
  {
    r, moved := ts, false;
    for i := 0 to |ts|
      invariant |r| == |ts|
      invariant forall k | 0 <= k < i :: r[k] == ExpireOne(ts[k], now)
      invariant forall k | i <= k < |ts| :: r[k] == ts[k]
      invariant moved <==> exists k | 0 <= k < i :: Lapsed(ts[k], now)
    {
      if r[i].state.Claimed? && r[i].claimedUntil.Some? && r[i].claimedUntil.value as real <= now {
        assert Lapsed(ts[i], now);
        r, moved := r[i := Unclaimed(r[i])], true;
      }
    }
  }

  /** `tasks` is what the store holds under the source's key.  Every mutating method is one critical
      section of the store's lock; `now` is the clock as read inside it. */
  class StoreTaskSource {
    var tasks: TaskList
    const lease: real

    constructor (lease: real, tasks: TaskList)
      requires WholeLease(lease)
      ensures this.lease == lease && this.tasks == tasks
    {
      this.lease, this.tasks := lease, tasks;
    }

    /** The lease asked for, or the source's own. */
    function LeaseOr(seconds: Option<real>): (r: real)
      ensures seconds.None? ==> r == lease
      ensures seconds.Some? ==> r == seconds.value
    {
      if seconds.None? then lease else seconds.value
    }

    method AddMany(instructions: seq<string>, ids: Option<seq<string>>) returns (reply: Result<seq<Task>, TaskError>)
      modifies `tasks
      ensures Outcome(tasks, reply) == Tasks.AddMany(old(tasks), instructions, ids)
    {
      if ids.Some? && |ids.value| != |instructions| {
        return Err(LengthMismatch);
      }
      var records, added := tasks, [];
      for i := 0 to |instructions|
        invariant records == tasks + added
        invariant Appended(tasks, instructions, ids, 0) == Appended(records, instructions, ids, i)
      {
        var id := if ids.Some? then ids.value[i] else "t-" + Digits(|records| + 1);
        if id == "" {
          return Err(BlankIdentifier);
        }
        if Locate(records, id) < |records| {
          return Err(DuplicateId);
        }
        records, added := records + [NewTask(id, instructions[i])], added + [NewTask(id, instructions[i])];
      }
      assert records[|tasks|..] == added;
      tasks := records;
      return Ok(added);
    }

    method Claim(worker: string, seconds: Option<real>, now: real) returns (reply: Result<Option<Task>, TaskError>)
      modifies `tasks
      ensures reply == Tasks.Claim(old(tasks), worker, LeaseOr(seconds), now).reply
      ensures tasks == Tasks.Claim(old(tasks), worker, LeaseOr(seconds), now).tasks
      ensures reply.Ok? && reply.value.None? ==> forall t | t in old(tasks) :: !Lapsed(t, now)
      ensures reply.Ok? && reply.value.Some? ==>
                && reply.value.value.claimedBy == Some(worker)
                && reply.value.value.claimedUntil.Some?
                && Grants(now, if seconds.None? then lease else seconds.value, reply.value.value.claimedUntil.value)
    {
      if worker == "" {
        return Err(BlankIdentifier);
      }
      var granted := LeaseOr(seconds);
      if !WholeLease(granted) {
        return Err(LeaseInvalid);
      }
      var records, expired := ExpireAll(tasks, now);
      var k := FirstTodo(records);
      if k == |records| {
        // The source stores the expiries here; an expiry would have left a claimable task.
        assert expired ==> false;
        return Ok(None);
      }
      var taken := records[k].(state := Claimed, claimedBy := Some(worker), claimedUntil := Some(Expiry(now, granted)));
      ExpiryGrants(now, granted);
      tasks := records[k := taken];
      return Ok(Some(taken));
    }

    method Release(id: string, worker: string, outcome: TaskOutcome, now: real) returns (reply: Result<Task, TaskError>)
      modifies `tasks
      ensures Outcome(tasks, reply) == Tasks.Release(old(tasks), id, worker, outcome, now)
      ensures reply.Ok? ==>
                exists k | 0 <= k < |old(tasks)| ::
                  && old(tasks)[k].id == id
                  && tasks[k] == reply.value
                  && reply.value == Task(id, old(tasks)[k].instruction,
                                         if outcome.Succeed? then Done else Failed, None, None)
    {
      if worker == "" {
        return Err(BlankIdentifier);
      }
      var records, _ := ExpireAll(tasks, now);
      var k := Locate(records, id);
      if k == |records| {
        return Err(NotFound);
      }
      if records[k].state.IsTerminal() {
        return Err(AlreadyTerminal(records[k].state));
      }
      if !records[k].state.Claimed? {
        return Err(LeaseNotHeld);
      }
      if records[k].claimedBy != Some(worker) {
        return Err(LeaseNotHeld);
      }
      var settled := records[k].(state := outcome.ToState(), claimedBy := None, claimedUntil := None);
      tasks := records[k := settled];
      return Ok(settled);
    }

    method ExtendLease(id: string, worker: string, seconds: Option<real>, spend: Budgets.Spend, budget: Budgets.Budget,
                       elapsed: real, now: real) returns (reply: Result<Task, TaskError>)
      modifies `tasks
      ensures Outcome(tasks, reply) ==
              Tasks.ExtendLease(old(tasks), id, worker, LeaseOr(seconds), spend, budget, elapsed, now)
    {
      if worker == "" {
        return Err(BlankIdentifier);
      }
      var granted := LeaseOr(seconds);
      if !WholeLease(granted) {
        return Err(LeaseInvalid);
      }
      var allowed := Granted(granted, spend, budget, elapsed);
      if allowed.Err? {
        return Err(allowed.error);
      }
      var records, _ := ExpireAll(tasks, now);
      var k := Locate(records, id);
      if k == |records| {
        return Err(NotFound);
      }
      var objection := Objection(records[k], worker);
      if objection.Some? {
        return Err(objection.value);
      }
      var held := records[k].(claimedUntil := Some(Expiry(now, allowed.value)));
      tasks := records[k := held];
      return Ok(held);
    }

    method Pending(now: real) returns (n: nat)
      ensures n == Tasks.Pending(tasks, now)
    {
      var records, _ := ExpireAll(tasks, now);
      n := CountTodo(records);
    }

    /** One task by id, its claim shown as it stands at `now`. */
    method Find(id: string, now: real) returns (task: Option<Task>)
      ensures task.None? <==> forall t | t in tasks :: t.id != id
      ensures task.Some? ==> exists k | 0 <= k < |tasks| :: tasks[k].id == id && task.value == ExpireOne(tasks[k], now)
    {
      var records, _ := ExpireAll(tasks, now);
      var k := Locate(records, id);
      if k == |records| {
        assert forall j | 0 <= j < |tasks| :: tasks[j].id == records[j].id;
        return None;
      }
      return Some(records[k]);
    }
  }

  // ----- draining -----

  function TodoIds(ts: TaskList): seq<string> {
    if ts == [] then [] else (if ts[0].state.Todo? then [ts[0].id] else []) + TodoIds(ts[1..])
  }

  lemma {:induction false} CountIsLength(ts: TaskList)
    ensures CountTodo(ts) == |TodoIds(ts)|
  {
    if ts != [] {
      CountIsLength(ts[1..]);
    }
  }

  lemma {:induction false} TakingFirstTodo(ts: TaskList, t: Task)
    requires FirstTodo(ts) < |ts| && !t.state.Todo?
    ensures var k := FirstTodo(ts);
            TodoIds(ts) == [ts[k].id] + TodoIds(ts[k := t])
  {
    var k := FirstTodo(ts);
    if k == 0 {
      assert ts[0 := t][1..] == ts[1..];
    } else {
      TakingFirstTodo(ts[1..], t);
      var us := ts[k := t];
      assert us[1..] == ts[1..][k - 1 := t];
      assert TodoIds(us) == TodoIds(us[1..]);
    }
  }

  lemma {:induction false} NoTodoLeft(ts: TaskList)
    requires FirstTodo(ts) == |ts|
    ensures TodoIds(ts) == []
  {
    if ts != [] {
      NoTodoLeft(ts[1..]);
    }
  }

  /** A claim that expired anything has something to hand out. */
  lemma ExpiryFeedsClaim(ts: TaskList, worker: string, lease: real, now: real, k: nat)
    requires worker != "" && WholeLease(lease) && k < |ts| && Lapsed(ts[k], now)
    ensures Claim(ts, worker, lease, now).reply.Ok? && Claim(ts, worker, lease, now).reply.value.Some?
  {
    assert Expire(ts, now)[k].state.Todo?;
  }

  lemma ClaimTakesNext(ts: TaskList, worker: string, lease: real, now: real)
    requires worker != "" && WholeLease(lease)
    ensures var o := Claim(ts, worker, lease, now);
            var ids := TodoIds(Expire(ts, now));
            && o.reply.Ok?
            && (o.reply.value.None? <==> ids == [])
            && (ids != [] ==> o.reply.value.value.id == ids[0] && TodoIds(Expire(o.tasks, now)) == ids[1..])
            && (ids == [] ==> Expire(o.tasks, now) == Expire(ts, now))
  {
    var es := Expire(ts, now);
    var k := FirstTodo(es);
    ExpireTwice(ts, now, now);
    if k < |es| {
      GrantLasts(now, lease);
      var t := es[k].(state := Claimed, claimedBy := Some(worker), claimedUntil := Some(Expiry(now, lease)));
      TakingFirstTodo(es, t);
      assert Expire(es[k := t], now) == es[k := t];
    } else {
      NoTodoLeft(es);
    }
  }

  /** `n` claims in a row under a frozen clock. */
  function Drain(ts: TaskList, worker: string, lease: real, now: real, n: nat): seq<Option<string>>
    requires worker != "" && WholeLease(lease)
    decreases n
  {
    if n == 0 then []
    else
      var o := Claim(ts, worker, lease, now);
      [if o.reply.Ok? && o.reply.value.Some? then Some(o.reply.value.value.id) else None]
      + Drain(o.tasks, worker, lease, now, n - 1)
  }

  /** Exactly `Pending` claims succeed, in insertion order, and every later one answers None. */
  lemma {:induction false} DrainsInOrder(ts: TaskList, worker: string, lease: real, now: real, n: nat, i: nat)
    requires worker != "" && WholeLease(lease) && i < n
    ensures |Drain(ts, worker, lease, now, n)| == n && |TodoIds(Expire(ts, now))| == Pending(ts, now)
    ensures Drain(ts, worker, lease, now, n)[i] ==
            if i < Pending(ts, now) then Some(TodoIds(Expire(ts, now))[i]) else None
    decreases n
  {
    ClaimTakesNext(ts, worker, lease, now);
    CountIsLength(Expire(ts, now));
    var us := Claim(ts, worker, lease, now).tasks;
    assert |TodoIds(Expire(ts, now))| == Pending(ts, now);
    hide Claim, Expire, Pending, WholeLease, TodoIds;
    if n > 1 {
      DrainsInOrder(us, worker, lease, now, n - 1, if i > 0 then i - 1 else 0);
    }
  }
}

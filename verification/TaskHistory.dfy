/** What every history of the task list obeys, whoever the workers are. */
module TaskHistory {
  import opened Wrappers
  import opened Tasks

  /** The latest claim or extension of a task. */
  datatype Grant = Grant(worker: string, until: int)

  datatype World = World(tasks: TaskList, grants: map<string, Grant>, clock: real)

  function ReplyOf(w: World, e: Event): Reply {
    Perform(w.tasks, e).1
  }

  function Advance(w: World, e: Event): World {
    var (ts, reply) := Perform(w.tasks, e);
    var grants :=
      if (reply.Took? || reply.Extended?) && reply.task.claimedBy.Some? && reply.task.claimedUntil.Some? then
        w.grants[reply.task.id := Grant(reply.task.claimedBy.value, reply.task.claimedUntil.value)]
      else w.grants;
    World(ts, grants, e.now)
  }

  function After(w: World, es: seq<Event>): World
    decreases |es|
  {
    if es == [] then w else Advance(After(w, es[..|es| - 1]), es[|es| - 1])
  }

  predicate MonotoneFrom(t: real, es: seq<Event>) {
    (forall i | 0 <= i < |es| :: t <= es[i].now) && (forall i, j | 0 <= i < j < |es| :: es[i].now <= es[j].now)
  }

  predicate Distinct(ts: TaskList) {
    forall i, j | 0 <= i < j < |ts| :: ts[i].id != ts[j].id
  }

  /** The stored claim is the latest grant, and a task is free only once its latest grant is over. */
  predicate TaskOk(t: Task, grants: map<string, Grant>, clock: real) {
    && (t.state.Claimed? ==>
          t.claimedBy.Some? && t.claimedUntil.Some? && t.id in grants &&
          grants[t.id] == Grant(t.claimedBy.value, t.claimedUntil.value))
    && (!t.state.Claimed? ==> t.claimedBy.None? && t.claimedUntil.None?)
    && (t.state.Todo? && t.id in grants ==> grants[t.id].until as real <= clock)
  }

  predicate WorldOk(w: World) {
    && Distinct(w.tasks)
    && (forall k | 0 <= k < |w.tasks| :: TaskOk(w.tasks[k], w.grants, w.clock))
    && (forall id | id in w.grants :: id in Ids(w.tasks))
  }

  /** Nothing is dropped, reordered or reworded, and a terminal task never changes. */
  predicate Evolves(ts: TaskList, us: TaskList) {
    && |ts| <= |us|
    && forall k | 0 <= k < |ts| ::
         && us[k].id == ts[k].id
         && us[k].instruction == ts[k].instruction
         && (ts[k].state.IsTerminal() ==> us[k] == ts[k])
  }

  /** A task moves only when the rules let it: it is taken at or after its latest expiry, and
      settled or extended by its latest claimant before it. */
  predicate Lawful(w: World, e: Event) {
    match ReplyOf(w, e)
    case Took(t) =>
      && e.op.OpClaim? && t.state == Claimed && t.claimedBy == Some(e.op.worker)
      && t.claimedUntil.Some? && Grants(e.now, e.op.lease, t.claimedUntil.value)
      && (t.id in w.grants ==> w.grants[t.id].until as real <= e.now)
    case Settled(t) =>
      && e.op.OpRelease? && t.id == e.op.id && t.claimedBy.None?
      && t.state == (if e.op.outcome.Succeed? then Done else Failed)
      && t.id in w.grants && w.grants[t.id].worker == e.op.worker && e.now < w.grants[t.id].until as real
    case Extended(t) =>
      && e.op.OpExtend? && t.id == e.op.id && t.state == Claimed && t.claimedBy == Some(e.op.worker)
      && t.id in w.grants && w.grants[t.id].worker == e.op.worker && e.now < w.grants[t.id].until as real
    case _ => true
  }

  /** The task an event takes, settles or extends. */
  predicate Moves(reply: Reply, id: string) {
    (reply.Took? || reply.Settled? || reply.Extended?) && reply.task.id == id
  }

  // ----- one event -----

  lemma ExpireOk(w: World, now: real)
    requires WorldOk(w) && w.clock <= now
    ensures WorldOk(World(Expire(w.tasks, now), w.grants, now)) && Evolves(w.tasks, Expire(w.tasks, now))
  {
    assert Ids(Expire(w.tasks, now)) == Ids(w.tasks);
  }

  /** Replacing one task by another with the same id, under a grant map that agrees with it. */
  lemma UpdateOk(w: World, k: nat, t: Task, grants: map<string, Grant>)
    requires WorldOk(w) && k < |w.tasks| && t.id == w.tasks[k].id
    requires TaskOk(t, grants, w.clock)
    requires forall id | id != t.id :: id in grants <==> id in w.grants
    requires forall id | id != t.id && id in w.grants :: grants[id] == w.grants[id]
    ensures WorldOk(World(w.tasks[k := t], grants, w.clock))
  {
    var us := w.tasks[k := t];
    assert Ids(us) == Ids(w.tasks);
    forall j | 0 <= j < |us|
      ensures TaskOk(us[j], grants, w.clock)
    {
      assert TaskOk(w.tasks[j], w.grants, w.clock);
      if j != k {
        assert w.tasks[j].id != w.tasks[k].id;
      }
    }
  }

  lemma UpdateEvolves(ts: TaskList, us: TaskList, k: nat, t: Task)
    requires Evolves(ts, us) && k < |ts| && !ts[k].state.IsTerminal()
    requires t.id == ts[k].id && t.instruction == ts[k].instruction
    ensures Evolves(ts, us[k := t])
  {
  }

  /** A move of task `k`, after expiry, to a record the new grants agree with. */
  lemma MoveOk(w: World, now: real, k: nat, t: Task, grants: map<string, Grant>)
    requires WorldOk(w) && w.clock <= now && k < |w.tasks| && !w.tasks[k].state.IsTerminal()
    requires t.id == w.tasks[k].id && t.instruction == w.tasks[k].instruction && TaskOk(t, grants, now)
    requires forall id | id != t.id :: id in grants <==> id in w.grants
    requires forall id | id != t.id && id in w.grants :: grants[id] == w.grants[id]
    ensures WorldOk(World(Expire(w.tasks, now)[k := t], grants, now))
    ensures Evolves(w.tasks, Expire(w.tasks, now)[k := t])
  {
    ExpireOk(w, now);
    UpdateOk(World(Expire(w.tasks, now), w.grants, now), k, t, grants);
    UpdateEvolves(w.tasks, Expire(w.tasks, now), k, t);
  }

  lemma RefusedOk(w: World, now: real)
    requires WorldOk(w) && w.clock <= now
    ensures WorldOk(World(w.tasks, w.grants, now)) && Evolves(w.tasks, w.tasks)
  {
  }

  lemma ClaimLawful(w: World, e: Event)
    requires WorldOk(w) && w.clock <= e.now && e.op.OpClaim?
    ensures WorldOk(Advance(w, e)) && Evolves(w.tasks, Advance(w, e).tasks) && Lawful(w, e)
  {
    ExpireOk(w, e.now);
    RefusedOk(w, e.now);
    var es := Expire(w.tasks, e.now);
    var k := FirstTodo(es);
    if e.op.worker != "" && WholeLease(e.op.lease) && k < |es| {
      ExpiryGrants(e.now, e.op.lease);
      var until := Expiry(e.now, e.op.lease);
      var t := es[k].(state := Claimed, claimedBy := Some(e.op.worker), claimedUntil := Some(until));
      assert TaskOk(es[k], w.grants, e.now);
      MoveOk(w, e.now, k, t, w.grants[t.id := Grant(e.op.worker, until)]);
    }
  }

  /** A worker nobody objects to holds the latest grant, and it is not over. */
  lemma HolderHasLatestGrant(w: World, now: real, k: nat, worker: string)
    requires WorldOk(w) && w.clock <= now && k < |w.tasks| && Objection(Expire(w.tasks, now)[k], worker).None?
    ensures var t := w.tasks[k];
            Expire(w.tasks, now)[k] == t && !t.state.IsTerminal() && t.id in w.grants &&
            w.grants[t.id].worker == worker && now < w.grants[t.id].until as real
  {
    assert TaskOk(w.tasks[k], w.grants, w.clock);
  }

  /** The task is out with this worker: it is claimed, and the latest grant is his and not over. */
  predicate HeldBy(w: World, id: string, worker: string, now: real) {
    exists k | 0 <= k < |w.tasks| ::
      && w.tasks[k].id == id && w.tasks[k].state == Claimed
      && id in w.grants && w.grants[id].worker == worker && now < w.grants[id].until as real
  }

  /** Who holds a task may settle it, and may extend it while his run may go on; nobody else may. */
  lemma ServedIffHeld(w: World, e: Event)
    requires WorldOk(w) && w.clock <= e.now && (e.op.OpRelease? || e.op.OpExtend?)
    ensures var held := e.op.worker != "" && HeldBy(w, e.op.id, e.op.worker, e.now);
            && (e.op.OpRelease? ==> (ReplyOf(w, e).Settled? <==> held))
            && (e.op.OpExtend? ==>
                  (ReplyOf(w, e).Extended? <==>
                     held && WholeLease(e.op.lease) && MayHold(e.op.spend, e.op.budget, e.op.elapsed)))
  {
    var k := Locate(w.tasks, e.op.id);
    HeldIff(w, e.op.id, e.op.worker, e.now, k);
    if e.op.OpRelease? {
      ReleaseAnswers(w.tasks, e.op.id, e.op.worker, e.op.outcome, e.now, k);
    } else {
      ExtensionAnswers(w.tasks, e.op.id, e.op.worker, e.op.lease, e.op.spend, e.op.budget, e.op.elapsed, e.now, k);
    }
    hide WorldOk, HeldBy, Holds, WholeLease, MayHold, Release, ExtendLease, Grants, Expire, Cut;
  }

  /** The task may be taken: nobody has it, or the latest grant of it is over. */
  predicate IsFree(w: World, k: nat, now: real)
    requires k < |w.tasks|
  {
    var t := w.tasks[k];
    t.state == Todo || (t.state == Claimed && t.id in w.grants && w.grants[t.id].until as real <= now)
  }

  /** A claim takes the first free task, whoever asks, and answers that nothing is left exactly when none
      is free. */
  lemma TakesFirstFree(w: World, e: Event, k: nat)
    requires WorldOk(w) && w.clock <= e.now && e.op.OpClaim? && e.op.worker != "" && WholeLease(e.op.lease)
    requires k <= |w.tasks| && (forall j | 0 <= j < k :: !IsFree(w, j, e.now))
    requires k < |w.tasks| ==> IsFree(w, k, e.now)
    ensures if k == |w.tasks| then ReplyOf(w, e) == NothingLeft
            else
              && ReplyOf(w, e).Took?
              && ReplyOf(w, e).task.id == w.tasks[k].id
              && ReplyOf(w, e).task.instruction == w.tasks[k].instruction
              && Advance(w, e).tasks == Expire(w.tasks, e.now)[k := ReplyOf(w, e).task]
  {
    forall j | 0 <= j < |w.tasks|
      ensures IsFree(w, j, e.now) <==> w.tasks[j].state.Todo? || Lapsed(w.tasks[j], e.now)
    {
      assert TaskOk(w.tasks[j], w.grants, w.clock);
    }
    ClaimAnswers(w.tasks, e.op.worker, e.op.lease, e.now, k);
    hide Grants, WorldOk;
  }

  function Todos(ts: TaskList): set<nat> {
    set k: nat | k < |ts| && ts[k].state.Todo?
  }

  lemma {:induction false} CountSnoc(ts: TaskList, t: Task)
    ensures CountTodo(ts + [t]) == CountTodo(ts) + if t.state.Todo? then 1 else 0
  {
    if ts == [] {
      assert ([] + [t])[1..] == [];
    } else {
      assert (ts + [t])[1..] == ts[1..] + [t];
      CountSnoc(ts[1..], t);
    }
  }

  lemma {:induction false} CountIsTodos(ts: TaskList)
    ensures CountTodo(ts) == |Todos(ts)|
    decreases |ts|
  {
    if ts != [] {
      var k := |ts| - 1;
      var before, last := ts[..k], ts[k];
      assert ts == before + [last];
      CountSnoc(before, last);
      CountIsTodos(before);
      assert Todos(ts) == if last.state.Todo? then Todos(before) + {k} else Todos(before);
      assert k !in Todos(before);
      hide Todos, CountTodo;
    }
  }

  /** The tasks that may be taken. */
  ghost function FreeTasks(w: World, now: real): set<nat> {
    set k: nat | k < |w.tasks| && IsFree(w, k, now)
  }

  /** Adding answers what it appended, counting how many tasks may be taken, and listing every task with
      the claims that are over shown as free; none of them changes anything else. */
  lemma ReadsAnswer(w: World, e: Event)
    requires WorldOk(w) && w.clock <= e.now
    ensures e.op.OpAdd? && ReplyOf(w, e).Added? ==> Advance(w, e).tasks == w.tasks + ReplyOf(w, e).tasks
    ensures e.op.OpAdd? && !ReplyOf(w, e).Added? ==> ReplyOf(w, e).Refused? && Advance(w, e).tasks == w.tasks
    ensures e.op.OpPending? ==>
              Advance(w, e).tasks == w.tasks && ReplyOf(w, e) == Count(|FreeTasks(w, e.now)|)
    ensures e.op.OpRecords? ==>
              && Advance(w, e).tasks == w.tasks
              && ReplyOf(w, e).Listing? && |ReplyOf(w, e).tasks| == |w.tasks|
              && forall k | 0 <= k < |w.tasks| ::
                   ReplyOf(w, e).tasks[k] ==
                   if IsFree(w, k, e.now) then Task(w.tasks[k].id, w.tasks[k].instruction, Todo, None, None)
                   else w.tasks[k]
  {
    var es := Expire(w.tasks, e.now);
    forall k | 0 <= k < |w.tasks|
      ensures IsFree(w, k, e.now) <==> es[k].state.Todo?
      ensures es[k] == if IsFree(w, k, e.now) then Task(w.tasks[k].id, w.tasks[k].instruction, Todo, None, None)
                       else w.tasks[k]
    {
      assert TaskOk(w.tasks[k], w.grants, w.clock);
    }
    CountIsTodos(es);
    assert Todos(es) == FreeTasks(w, e.now);
    if e.op.OpAdd? {
      AddReplies(w.tasks, e.op.instructions, e.op.ids);
    }
    hide WorldOk, Expire, AddMany, Todos, FreeTasks, IsFree, CountTodo;
  }

  lemma AddReplies(ts: TaskList, instructions: seq<string>, ids: Option<seq<string>>)
    ensures var o := AddMany(ts, instructions, ids);
            o.tasks == if o.reply.Ok? then ts + o.reply.value else ts
  {
    hide Appended;
  }

  lemma HeldIff(w: World, id: string, worker: string, now: real, k: nat)
    requires WorldOk(w) && StandsFirst(w.tasks, id, k)
    ensures HeldBy(w, id, worker, now) <==> k < |w.tasks| && Holds(w.tasks[k], worker, now)
  {
    if k < |w.tasks| {
      assert TaskOk(w.tasks[k], w.grants, w.clock);
    }
  }

  lemma ReleaseLawful(w: World, e: Event)
    requires WorldOk(w) && w.clock <= e.now && e.op.OpRelease?
    ensures WorldOk(Advance(w, e)) && Evolves(w.tasks, Advance(w, e).tasks) && Lawful(w, e)
  {
    RefusedOk(w, e.now);
    var es := Expire(w.tasks, e.now);
    var k := Locate(es, e.op.id);
    if e.op.worker != "" && k < |es| && Objection(es[k], e.op.worker).None? {
      HolderHasLatestGrant(w, e.now, k, e.op.worker);
      MoveOk(w, e.now, k, Unclaimed(es[k]).(state := e.op.outcome.ToState()), w.grants);
    }
  }

  lemma ExtendLawful(w: World, e: Event)
    requires WorldOk(w) && w.clock <= e.now && e.op.OpExtend?
    ensures WorldOk(Advance(w, e)) && Evolves(w.tasks, Advance(w, e).tasks) && Lawful(w, e)
  {
    RefusedOk(w, e.now);
    var es := Expire(w.tasks, e.now);
    var k := Locate(es, e.op.id);
    var g := Granted(e.op.lease, e.op.spend, e.op.budget, e.op.elapsed);
    if e.op.worker != "" && WholeLease(e.op.lease) && g.Ok? && k < |es| && Objection(es[k], e.op.worker).None? {
      HolderHasLatestGrant(w, e.now, k, e.op.worker);
      var t := es[k].(claimedUntil := Some(Expiry(e.now, g.value)));
      MoveOk(w, e.now, k, t, w.grants[t.id := Grant(e.op.worker, Expiry(e.now, g.value))]);
    }
  }

  lemma {:induction false} AppendedOk(ts: TaskList, instructions: seq<string>, ids: Option<seq<string>>, from: nat)
    requires ids.Some? ==> |ids.value| == |instructions|
    requires from <= |instructions| && Distinct(ts)
    ensures var r := Appended(ts, instructions, ids, from);
            r.Ok? ==>
              && Distinct(r.value)
              && forall k | |ts| <= k < |r.value| ::
                   r.value[k] == NewTask(r.value[k].id, r.value[k].instruction) && r.value[k].id !in Ids(ts)
    decreases |instructions| - from
  {
    if from < |instructions| {
      var id := if ids.Some? then ids.value[from] else "t-" + Digits(|ts| + 1);
      if id != "" && Locate(ts, id) == |ts| {
        var more := ts + [NewTask(id, instructions[from])];
        AppendedOk(more, instructions, ids, from + 1);
        assert Ids(more) == Ids(ts) + [id];
        assert id !in Ids(ts);
      }
    }
  }

  lemma AddLawful(w: World, e: Event)
    requires WorldOk(w) && w.clock <= e.now && e.op.OpAdd?
    ensures WorldOk(Advance(w, e)) && Evolves(w.tasks, Advance(w, e).tasks) && Lawful(w, e)
  {
    var r := AddMany(w.tasks, e.op.instructions, e.op.ids);
    if r.reply.Ok? {
      AddedOk(w, e.now, e.op.instructions, e.op.ids);
    } else {
      RefusedOk(w, e.now);
    }
    hide AddMany, WorldOk, Evolves;
  }

  lemma AddedOk(w: World, now: real, instructions: seq<string>, ids: Option<seq<string>>)
    requires WorldOk(w) && w.clock <= now && AddMany(w.tasks, instructions, ids).reply.Ok?
    ensures var ts := AddMany(w.tasks, instructions, ids).tasks;
            WorldOk(World(ts, w.grants, now)) && Evolves(w.tasks, ts)
  {
    AppendedOk(w.tasks, instructions, ids, 0);
    hide WorldOk, Evolves, Distinct, Ids;
    LongerOk(w, Appended(w.tasks, instructions, ids, 0).value, now);
  }

  lemma LongerOk(w: World, all: TaskList, now: real)
    requires WorldOk(w) && w.clock <= now && w.tasks <= all && Distinct(all)
    requires forall k | |w.tasks| <= k < |all| ::
               all[k] == NewTask(all[k].id, all[k].instruction) && all[k].id !in Ids(w.tasks)
    ensures WorldOk(World(all, w.grants, now)) && Evolves(w.tasks, all)
  {
    assert Ids(all) == Ids(w.tasks) + Ids(all[|w.tasks|..]);
    hide Ids, Distinct;
    forall k | 0 <= k < |all|
      ensures TaskOk(all[k], w.grants, now)
    {
      if k < |w.tasks| {
        assert TaskOk(w.tasks[k], w.grants, w.clock);
      }
    }
  }

  lemma EventLawful(w: World, e: Event)
    requires WorldOk(w) && w.clock <= e.now
    ensures WorldOk(Advance(w, e)) && Evolves(w.tasks, Advance(w, e).tasks) && Lawful(w, e)
  {
    match e.op
    case OpAdd(_, _) => AddLawful(w, e);
    case OpClaim(_, _) => ClaimLawful(w, e);
    case OpRelease(_, _, _) => ReleaseLawful(w, e);
    case OpExtend(_, _, _, _, _, _) => ExtendLawful(w, e);
    case OpTick => ExpireOk(w, e.now);
    case _ => RefusedOk(w, e.now);
  }

  // ----- whole histories -----

  lemma {:induction false} RunOk(w: World, es: seq<Event>)
    requires WorldOk(w) && MonotoneFrom(w.clock, es)
    ensures WorldOk(After(w, es)) && Evolves(w.tasks, After(w, es).tasks)
    ensures After(w, es).clock == if es == [] then w.clock else es[|es| - 1].now
    decreases |es|
  {
    if es != [] {
      RunOk(w, es[..|es| - 1]);
      EventLawful(After(w, es[..|es| - 1]), es[|es| - 1]);
    }
  }

  /** Every event of every history is lawful. */
  lemma HistoryIsLawful(w: World, es: seq<Event>, i: nat)
    requires WorldOk(w) && MonotoneFrom(w.clock, es) && i < |es|
    ensures Lawful(After(w, es[..i]), es[i])
  {
    RunOk(w, es[..i]);
    EventLawful(After(w, es[..i]), es[i]);
  }

  lemma {:induction false} AfterConcat(w: World, first: seq<Event>, second: seq<Event>)
    ensures After(w, first + second) == After(After(w, first), second)
    decreases |second|
  {
    if second == [] {
      assert first + second == first;
    } else {
      var k := |second| - 1;
      assert (first + second)[..|first + second| - 1] == first + second[..k];
      AfterConcat(w, first, second[..k]);
    }
  }

  /** Only a task that is not terminal moves. */
  lemma MoversAreOpen(w: World, e: Event, k: nat)
    requires WorldOk(w) && w.clock <= e.now && k < |w.tasks| && w.tasks[k].state.IsTerminal()
    ensures !Moves(ReplyOf(w, e), w.tasks[k].id)
  {
    ExpireOk(w, e.now);
    var es := Expire(w.tasks, e.now);
    assert es[k] == w.tasks[k];
    assert Distinct(es);
    hide WorldOk, Expire, ReplyOf, Evolves;
    var reply := ReplyOf(w, e);
    if reply.Took? || reply.Settled? || reply.Extended? {
      var j := Mover(w, e);
      assert j != k;
    }
  }

  /** The task a reply moves was open when the operation met it. */
  lemma Mover(w: World, e: Event) returns (j: nat)
    requires ReplyOf(w, e).Took? || ReplyOf(w, e).Settled? || ReplyOf(w, e).Extended?
    ensures var es := Expire(w.tasks, e.now);
            j < |es| && es[j].id == ReplyOf(w, e).task.id && !es[j].state.IsTerminal()
  {
    var es := Expire(w.tasks, e.now);
    hide Expire;
    j := if e.op.OpClaim? then FirstTodo(es) else Locate(es, e.op.id);
  }

  /** The task a release settles is terminal afterwards. */
  lemma SettledIsTerminal(w: World, e: Event) returns (k: nat)
    requires WorldOk(w) && w.clock <= e.now && ReplyOf(w, e).Settled?
    ensures k < |Advance(w, e).tasks|
    ensures Advance(w, e).tasks[k].id == ReplyOf(w, e).task.id && Advance(w, e).tasks[k].state.IsTerminal()
  {
    k := Locate(Expire(w.tasks, e.now), e.op.id);
  }

  lemma TerminalStaysPut(w: World, es: seq<Event>, e: Event, k: nat)
    requires WorldOk(w) && MonotoneFrom(w.clock, es + [e]) && k < |w.tasks| && w.tasks[k].state.IsTerminal()
    ensures !Moves(ReplyOf(After(w, es), e), w.tasks[k].id)
  {
    assert (es + [e])[|es|] == e;
    assert forall i | 0 <= i < |es| :: (es + [e])[i] == es[i];
    RunOk(w, es);
    MoversAreOpen(After(w, es), e, k);
  }

  lemma SplitHistory(w: World, es: seq<Event>, i: nat, j: nat)
    requires MonotoneFrom(w.clock, es) && i < j < |es|
    ensures After(w, es[..i + 1]) == Advance(After(w, es[..i]), es[i])
    ensures After(w, es[..j]) == After(After(w, es[..i + 1]), es[i + 1..j])
    ensures MonotoneFrom(es[i].now, es[i + 1..j] + [es[j]]) && MonotoneFrom(w.clock, es[..i + 1])
  {
    MonotoneSplits(w.clock, es, i, j);
    hide Advance, MonotoneFrom;
    assert es[..i + 1][..i] == es[..i];
    assert es[..j] == es[..i + 1] + es[i + 1..j];
    AfterConcat(w, es[..i + 1], es[i + 1..j]);
  }

  lemma MonotoneSplits(t: real, es: seq<Event>, i: nat, j: nat)
    requires MonotoneFrom(t, es) && i < j < |es|
    ensures MonotoneFrom(es[i].now, es[i + 1..j] + [es[j]]) && MonotoneFrom(t, es[..i + 1])
  {
    assert es[i + 1..j] + [es[j]] == es[i + 1..j + 1];
  }

  /** A settled task is never taken, extended or settled again. */
  lemma SettlesOnce(w: World, es: seq<Event>, i: nat, j: nat)
    requires WorldOk(w) && MonotoneFrom(w.clock, es) && i < j < |es|
    requires ReplyOf(After(w, es[..i]), es[i]).Settled?
    ensures !Moves(ReplyOf(After(w, es[..j]), es[j]), ReplyOf(After(w, es[..i]), es[i]).task.id)
  {
    hide Advance, WorldOk;
    SplitHistory(w, es, i, j);
    RunOk(w, es[..i]);
    RunOk(w, es[..i + 1]);
    assert After(w, es[..i]).clock <= es[i].now;
    var k := SettledIsTerminal(After(w, es[..i]), es[i]);
    TerminalStaysPut(After(w, es[..i + 1]), es[i + 1..j], es[j], k);
  }

  lemma {:induction false} GrantStands(w: World, es: seq<Event>, id: string)
    requires forall i | 0 <= i < |es| :: !Moves(ReplyOf(After(w, es[..i]), es[i]), id)
    requires id in w.grants
    ensures id in After(w, es).grants && After(w, es).grants[id] == w.grants[id]
    decreases |es|
  {
    if es != [] {
      var k := |es| - 1;
      assert forall i | 0 <= i < k :: es[..k][..i] == es[..i];
      GrantStands(w, es[..k], id);
      assert !Moves(ReplyOf(After(w, es[..k]), es[k]), id);
    }
  }

  lemma TakingGrants(w: World, e: Event)
    requires WorldOk(w) && w.clock <= e.now && ReplyOf(w, e).Took?
    ensures var t := ReplyOf(w, e).task;
            && t.claimedUntil.Some? && t.id in Advance(w, e).grants
            && Advance(w, e).grants[t.id].until == t.claimedUntil.value
  {
  }

  lemma StillBetween(w: World, es: seq<Event>, i: nat, j: nat, id: string)
    requires MonotoneFrom(w.clock, es) && i < j < |es|
    requires forall k | i < k < j :: !Moves(ReplyOf(After(w, es[..k]), es[k]), id)
    ensures var v, rest := After(w, es[..i + 1]), es[i + 1..j];
            forall k | 0 <= k < |rest| :: !Moves(ReplyOf(After(v, rest[..k]), rest[k]), id)
  {
    hide ReplyOf, Advance, After, Moves, MonotoneFrom;
    var v, rest := After(w, es[..i + 1]), es[i + 1..j];
    forall k | 0 <= k < |rest|
      ensures !Moves(ReplyOf(After(v, rest[..k]), rest[k]), id)
    {
      assert rest[..k] == es[i + 1..i + 1 + k];
      SplitHistory(w, es, i, i + 1 + k);
    }
  }

  /** Between one claim of a task and the next, the first lease has run out. */
  lemma LeasesDoNotOverlap(w: World, es: seq<Event>, i: nat, j: nat, id: string)
    requires WorldOk(w) && MonotoneFrom(w.clock, es) && i < j < |es|
    requires ReplyOf(After(w, es[..i]), es[i]).Took? && ReplyOf(After(w, es[..i]), es[i]).task.id == id
    requires ReplyOf(After(w, es[..j]), es[j]).Took? && ReplyOf(After(w, es[..j]), es[j]).task.id == id
    requires forall k | i < k < j :: !Moves(ReplyOf(After(w, es[..k]), es[k]), id)
    ensures ReplyOf(After(w, es[..i]), es[i]).task.claimedUntil.Some?
    ensures ReplyOf(After(w, es[..i]), es[i]).task.claimedUntil.value as real <= es[j].now
  {
    hide ReplyOf, Advance, WorldOk;
    SplitHistory(w, es, i, j);
    StillBetween(w, es, i, j, id);
    RunOk(w, es[..i]);
    TakingGrants(After(w, es[..i]), es[i]);
    GrantStands(After(w, es[..i + 1]), es[i + 1..j], id);
    HistoryIsLawful(w, es, j);
  }
}

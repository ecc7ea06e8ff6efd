/** The task list and the thread behind the directory lock: what concurrent workers can rely on. */
module SharedDocuments {
  import opened Wrappers
  import opened DirectoryLock
  import opened LockedStore
  import opened Thread
  import T = Tasks
  import H = TaskHistory

  // ----- the task list -----

  /** Each attempt performs one operation on the list it read, at the clock it read. */
  function TaskJob(ops: Nonce -> T.Op): Job<T.TaskList, T.Reply> {
    (n: Nonce, ts, now) => T.Perform(ts, T.Event(ops(n), now))
  }

  /** The commits, as a history of the task list. */
  function History(ops: Nonce -> T.Op, log: seq<Commit<T.Reply>>): (r: seq<T.Event>)
    ensures |r| == |log| && forall i | 0 <= i < |log| :: r[i] == T.Event(ops(log[i].nonce), log[i].at)
  {
    seq(|log|, i requires 0 <= i < |log| => T.Event(ops(log[i].nonce), log[i].at))
  }

  lemma {:induction false} SerialIsHistory(ops: Nonce -> T.Op, w: H.World, log: seq<Commit<T.Reply>>)
    ensures Serial(TaskJob(ops), w.tasks, log) == H.After(w, History(ops, log)).tasks
    decreases |log|
  {
    if log != [] {
      var k := |log| - 1;
      assert History(ops, log)[..k] == History(ops, log[..k]);
      SerialIsHistory(ops, w, log[..k]);
    }
  }

  /** Concurrent workers on one task list, under any interleaving of filesystem steps: the list is
      that of a serial history in clock order, and every answer a worker got is lawful in it. */
  lemma ConcurrentTasksAreLawful(ops: Nonce -> T.Op, s: Store<T.TaskList, T.Reply>, t: Store<T.TaskList, T.Reply>,
                                 k: nat, w: H.World)
    requires Starts(s) && Leads(TaskJob(ops), s, t, k)
    requires H.WorldOk(w) && w.tasks == s.doc && w.clock == s.clock
    ensures var es := History(ops, t.log);
            && t.doc == H.After(w, es).tasks && H.Evolves(s.doc, t.doc)
            && H.MonotoneFrom(w.clock, es)
            && (forall i | 0 <= i < |es| ::
                  t.log[i].reply == H.ReplyOf(H.After(w, es[..i]), es[i]) && H.Lawful(H.After(w, es[..i]), es[i]))
  {
    var es := History(ops, t.log);
    CallbacksAreSerial(TaskJob(ops), s, t, k);
    SerialIsHistory(ops, w, t.log);
    assert H.MonotoneFrom(w.clock, es);
    hide T.Perform, H.WorldOk, H.Lawful, H.Evolves, H.ReplyOf, H.MonotoneFrom, H.After, Leads, Starts;
    H.RunOk(w, es);
    forall i | 0 <= i < |es|
      ensures t.log[i].reply == H.ReplyOf(H.After(w, es[..i]), es[i]) && H.Lawful(H.After(w, es[..i]), es[i])
    {
      ReplyInHistory(ops, w, t.log, i);
      H.HistoryIsLawful(w, es, i);
    }
  }

  lemma ReplyInHistory(ops: Nonce -> T.Op, w: H.World, log: seq<Commit<T.Reply>>, i: nat)
    requires i < |log| && IsSerial(TaskJob(ops), w.tasks, log)
    ensures log[i].reply == H.ReplyOf(H.After(w, History(ops, log)[..i]), History(ops, log)[i])
  {
    SerialIsHistory(ops, w, log[..i]);
    assert History(ops, log[..i]) == History(ops, log)[..i];
    hide T.Perform, H.After, Serial;
  }

  /** No task is handed to two workers at once: between two claims of it the first lease ended,
      unless its holder extended or settled it in between. */
  lemma NoTaskIsSharedByTwo(ops: Nonce -> T.Op, s: Store<T.TaskList, T.Reply>, t: Store<T.TaskList, T.Reply>,
                            k: nat, w: H.World, i: nat, j: nat)
    requires Starts(s) && Leads(TaskJob(ops), s, t, k)
    requires H.WorldOk(w) && w.tasks == s.doc && w.clock == s.clock
    requires i < j < |t.log| && t.log[i].reply.Took? && t.log[j].reply.Took?
    requires t.log[i].reply.task.id == t.log[j].reply.task.id
    requires forall m | i < m < j :: !H.Moves(t.log[m].reply, t.log[i].reply.task.id)
    ensures t.log[i].reply.task.claimedUntil.Some?
    ensures t.log[i].reply.task.claimedUntil.value as real <= t.log[j].at
  {
    hide T.Perform, H.WorldOk, H.Lawful;
    ConcurrentTasksAreLawful(ops, s, t, k, w);
    H.LeasesDoNotOverlap(w, History(ops, t.log), i, j, t.log[i].reply.task.id);
  }

  // ----- the thread -----

  /** Each attempt appends one batch under its run's id; it is answered with the entries it appended. */
  function ThreadJob<M>(batches: Nonce -> seq<M>, runIds: Nonce -> Option<string>): Job<seq<Entry<M>>, seq<Entry<M>>> {
    (n: Nonce, entries: seq<Entry<M>>, now) =>
      (entries + Batch(|entries|, batches(n), runIds(n)), Batch(|entries|, batches(n), runIds(n)))
  }

  /** A message with the run it was recorded for. */
  datatype Said<M> = Said(message: M, runId: Option<string>)

  function AllSaid<M>(entries: seq<Entry<M>>): (r: seq<Said<M>>)
    ensures |r| == |entries| && forall i | 0 <= i < |r| :: r[i] == Said(entries[i].message, entries[i].runId)
  {
    seq(|entries|, i requires 0 <= i < |entries| => Said(entries[i].message, entries[i].runId))
  }

  function BatchSaid<M>(messages: seq<M>, runId: Option<string>): (r: seq<Said<M>>)
    ensures |r| == |messages| && forall i | 0 <= i < |r| :: r[i] == Said(messages[i], runId)
  {
    seq(|messages|, i requires 0 <= i < |messages| => Said(messages[i], runId))
  }

  /** The batches in the order they were committed, each under its own run. */
  function Committed<M, R>(batches: Nonce -> seq<M>, runIds: Nonce -> Option<string>, log: seq<Commit<R>>): seq<Said<M>>
    decreases |log|
  {
    if log == [] then []
    else
      var last := log[|log| - 1].nonce;
      Committed(batches, runIds, log[..|log| - 1]) + BatchSaid(batches(last), runIds(last))
  }

  lemma {:induction false} SerialThread<M>(batches: Nonce -> seq<M>, runIds: Nonce -> Option<string>,
                                           doc: seq<Entry<M>>, log: seq<Commit<seq<Entry<M>>>>)
    requires Numbered(doc)
    ensures var r := Serial(ThreadJob(batches, runIds), doc, log);
            Numbered(r) && AllSaid(r) == AllSaid(doc) + Committed(batches, runIds, log)
    decreases |log|
  {
    var job := ThreadJob(batches, runIds);
    if log != [] {
      var n, earlier := log[|log| - 1].nonce, log[..|log| - 1];
      var before := Serial(job, doc, earlier);
      SerialThread(batches, runIds, doc, earlier);
      SaidBehind(before, batches(n), runIds(n));
      var so, more := Committed(batches, runIds, earlier), BatchSaid(batches(n), runIds(n));
      assert Serial(job, doc, log) == before + Batch(|before|, batches(n), runIds(n));
      assert Committed(batches, runIds, log) == so + more;
      hide Serial, Committed, AllSaid, BatchSaid, Batch, Numbered;
      assert AllSaid(doc) + (so + more) == AllSaid(doc) + so + more;
    } else {
      assert AllSaid(doc) + [] == AllSaid(doc);
    }
  }

  lemma SaidBehind<M>(entries: seq<Entry<M>>, messages: seq<M>, runId: Option<string>)
    requires Numbered(entries)
    ensures var all := entries + Batch(|entries|, messages, runId);
            Numbered(all) && AllSaid(all) == AllSaid(entries) + BatchSaid(messages, runId)
  {
  }

  /** Concurrent appends lose no message and split no batch, every entry carries its worker's run, and
      positions run from 1. */
  lemma ConcurrentAppendsAreWhole<M(!new)>(batches: Nonce -> seq<M>, runIds: Nonce -> Option<string>,
                                           s: Store<seq<Entry<M>>, seq<Entry<M>>>,
                                           t: Store<seq<Entry<M>>, seq<Entry<M>>>, k: nat)
    requires Starts(s) && Leads(ThreadJob(batches, runIds), s, t, k) && Numbered(s.doc)
    ensures Numbered(t.doc) && AllSaid(t.doc) == AllSaid(s.doc) + Committed(batches, runIds, t.log)
    ensures forall i | 0 <= i < |t.log| ::
              AllSaid(t.log[i].reply) == BatchSaid(batches(t.log[i].nonce), runIds(t.log[i].nonce))
    ensures forall i, j | 0 <= i < j < |t.log| :: t.log[i].nonce != t.log[j].nonce
  {
    CallbacksAreSerial(ThreadJob(batches, runIds), s, t, k);
    SerialThread(batches, runIds, s.doc, t.log);
  }
}

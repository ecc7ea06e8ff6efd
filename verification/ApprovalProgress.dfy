/** What a resumer that nobody disturbs does for a stopped turn: every call that was approved runs, and
    every call is answered. */
module ApprovalProgress {
  import opened Dicts
  import opened ThreadRows
  import opened ThreadLaws
  import opened ToolScope
  import opened Approvals
  import opened ApprovalRace
  import opened Wrappers

  // ----- deciding -----

  /** A decision recorded while the turn is open stands for its approval from then on; no other changes,
      and nothing is answered by it. */
  lemma {:induction false} ApprovalStands(s: State, at: nat, turn: Row, approvalId: string, verdict: Verdict,
                                          id: string)
    requires Open(s.rows, at, turn) && turn.Assistant?
    ensures var t := After(s, Approve(approvalId, verdict));
            && Open(t.rows, at, turn) && Answered(t.rows, at) == Answered(s.rows, at)
            && Find(Decided(t.rows, at), id) ==
               if id == approvalId then Some(verdict) else Find(Decided(s.rows, at), id)
  {
    var row := ToolResult([], [Keyed(approvalId, verdict)]);
    OpenRow(s.rows, at, turn, row);
    ViewEnd(s.rows, row);
    var view := View(s.rows);
    AnswerPushed(view, at, row);
    var was, now := AnswerRow(view, at).decisions, AnswerRow(Push(view, row), at).decisions;
    CollapseIsFirstPlaceLastValue(was, id);
    CollapseIsFirstPlaceLastValue(now, id);
    DecisionLands(view, at, row, id);
    LastOfOne(approvalId, verdict, id);
    hide View, Push, AnswerRow, Collapse, LastValue, Find, Fold;
  }

  lemma LastOfOne(key: string, verdict: Verdict, id: string)
    ensures LastValue([Keyed(key, verdict)], id) == if id == key then Some(verdict) else None
  {
    var one := [Keyed(key, verdict)];
    assert one[..0] == [];
  }

  lemma {:induction false} DecisionLands(view: seq<Row>, at: nat, row: Row, id: string)
    requires at < |view| <= at + 2 && view[at].Assistant? && (|view| == at + 2 ==> view[at + 1].ToolResult?)
    requires row.ToolResult?
    ensures var was, now := AnswerRow(view, at).decisions, AnswerRow(Push(view, row), at).decisions;
            LastValue(now, id) == if LastValue(row.decisions, id).Some? then LastValue(row.decisions, id)
                                  else LastValue(was, id)
  {
    AnswerPushed(view, at, row);
    if |view| == at + 2 {
      AnswerIs(view, at + 1, at + 1);
      var was := view[at + 1].decisions;
      LastOfCollapsed(was + row.decisions, id);
      LastOfConcat(was, row.decisions, id);
    } else {
      assert Answer(view, at + 1).None?;
      assert LastValue<Verdict>([], id) == None;
    }
    hide Push, AnswerRow, LastValue, Collapse;
  }

  // ----- resuming -----

  /** The answers to the first `k` calls, each by its decision and its handler. */
  function AnswersTo(work: Work, bounded: seq<string>, handle: Call -> Handled, k: nat): (r: seq<Keyed<Output>>)
    requires k <= |work.calls|
    ensures |r| == k && forall i | 0 <= i < k :: r[i] == AnswerTo(work, bounded, work.calls[i], handle(work.calls[i]))
  {
    seq(k, i requires 0 <= i < k => AnswerTo(work, bounded, work.calls[i], handle(work.calls[i])))
  }

  /** The handler runs due among the first `k` calls. */
  function RunsDue(work: Work, bounded: seq<string>, seen: nat, k: nat): seq<Run>
    requires k <= |work.calls|
  {
    if k == 0 then []
    else
      var call := work.calls[k - 1];
      RunsDue(work, bounded, seen, k - 1)
      + if Runs(work, bounded, call)
        then [Run(work.turn, call.id, call.name, Find(work.approvals, call.id).value, seen)]
        else []
  }

  /** A resolver that has answered the first `k` calls of its work. */
  predicate HasSettled(s: State, from: State, r: nat, handle: Call -> Handled, k: nat)
    requires r in from.resumers && from.resumers[r].phase.Resolving?
  {
    var phase := from.resumers[r].phase;
    var bounded := Bounded(from.resumers[r].offered, phase.work.scope);
    && k <= |phase.work.calls|
    && r in s.resumers
    && s.resumers[r].phase.Resolving?
    && s.resumers[r].phase.work == phase.work && s.resumers[r].phase.taken == phase.taken
    && s.resumers[r].phase.settled == AnswersTo(phase.work, bounded, handle, k)
    && s.resumers[r].offered == from.resumers[r].offered
    && s.runs == from.runs + RunsDue(phase.work, bounded, phase.taken, k)
    && s.rows == from.rows && s.holder == from.holder
  }

  lemma SettlesOne(s: State, from: State, r: nat, handle: Call -> Handled, k: nat)
    requires r in from.resumers && from.resumers[r].phase.Resolving? && HasSettled(s, from, r, handle, k)
    requires k < |from.resumers[r].phase.work.calls|
    ensures var a := Settle(r, handle(from.resumers[r].phase.work.calls[k]));
            Enabled(s, a) && HasSettled(After(s, a), from, r, handle, k + 1)
  {
    var phase := from.resumers[r].phase;
    var bounded, call := Bounded(from.resumers[r].offered, phase.work.scope), phase.work.calls[k];
    var a := Settle(r, handle(call));
    var t := After(s, a);
    SettledOnce(s, r, handle(call));
    NextAnswer(phase.work, bounded, handle, k, phase.taken);
    hide AnswerTo, Bounded, Runs, AnswersTo, RunsDue, After;
    var due := RunsDue(phase.work, bounded, phase.taken, k);
    assert forall x: Run :: from.runs + due + [x] == from.runs + (due + [x]);
  }

  lemma SettledOnce(s: State, r: nat, handled: Handled)
    requires Enabled(s, Settle(r, handled))
    ensures var t, phase := After(s, Settle(r, handled)), s.resumers[r].phase;
            var call, bounded := phase.work.calls[|phase.settled|], Bounded(s.resumers[r].offered, phase.work.scope);
            var approval := Find(phase.work.approvals, call.id);
            && r in t.resumers && t.resumers[r].phase.Resolving?
            && t.resumers[r].phase.work == phase.work && t.resumers[r].phase.taken == phase.taken
            && t.resumers[r].phase.settled == phase.settled + [AnswerTo(phase.work, bounded, call, handled)]
            && t.resumers[r].offered == s.resumers[r].offered
            && t.rows == s.rows && t.holder == s.holder
            && t.runs ==
               if Runs(phase.work, bounded, call) && approval.Some?
               then s.runs + [Run(phase.work.turn, call.id, call.name, approval.value, phase.taken)]
               else s.runs
  {
    hide AnswerTo, Bounded, Runs, Find;
  }

  lemma {:induction false} NextAnswer(work: Work, bounded: seq<string>, handle: Call -> Handled, k: nat, seen: nat)
    requires k < |work.calls|
    ensures var call := work.calls[k];
            var approval := Find(work.approvals, call.id);
            && AnswersTo(work, bounded, handle, k + 1) ==
               AnswersTo(work, bounded, handle, k) + [AnswerTo(work, bounded, call, handle(call))]
            && RunsDue(work, bounded, seen, k + 1) ==
               if Runs(work, bounded, call) && approval.Some?
               then RunsDue(work, bounded, seen, k) + [Run(work.turn, call.id, call.name, approval.value, seen)]
               else RunsDue(work, bounded, seen, k)
  {
    hide AnswerTo;
  }

  lemma {:induction false} SettlesAll(s: State, from: State, r: nat, handle: Call -> Handled, k: nat)
    returns (actions: seq<Action>)
    requires r in from.resumers && from.resumers[r].phase.Resolving? && HasSettled(s, from, r, handle, k)
    ensures Possible(s, actions)
    ensures HasSettled(ApprovalRace.Reached(s, actions), from, r, handle, |from.resumers[r].phase.work.calls|)
    decreases |from.resumers[r].phase.work.calls| - k
  {
    if k == |from.resumers[r].phase.work.calls| {
      actions := [];
    } else {
      var a := Settle(r, handle(from.resumers[r].phase.work.calls[k]));
      SettlesOne(s, from, r, handle, k);
      hide HasSettled, Enabled, After;
      var rest := SettlesAll(After(s, a), from, r, handle, k + 1);
      actions := [a] + rest;
      OneThen(s, a, rest);
    }
  }

  lemma OneThen(s: State, a: Action, rest: seq<Action>)
    requires Enabled(s, a) && Possible(After(s, a), rest)
    ensures Possible(s, [a] + rest) && ApprovalRace.Reached(s, [a] + rest) == ApprovalRace.Reached(After(s, a), rest)
  {
    assert ([a] + rest)[1..] == rest;
    hide Enabled, After;
  }

  lemma {:induction false} BothRuns(s: State, first: seq<Action>, second: seq<Action>)
    requires Possible(s, first) && Possible(ApprovalRace.Reached(s, first), second)
    ensures Possible(s, first + second)
    ensures ApprovalRace.Reached(s, first + second) == ApprovalRace.Reached(ApprovalRace.Reached(s, first), second)
    decreases |first|
  {
    if first == [] {
      assert first + second == second;
    } else {
      assert (first + second)[1..] == first[1..] + second;
      hide Enabled, After;
      BothRuns(After(s, first[0]), first[1..], second);
    }
  }

  /** The steps before the calls are answered: begin, peek, take the lock, read again. */
  lemma Opens(s: State, r: nat, offered: seq<string>, gates: seq<string>) returns (actions: seq<Action>)
    requires s.holder.None? && r !in s.resumers && Unresolved(s.rows, gates).Some?
    ensures Possible(s, actions)
    ensures var t, work := ApprovalRace.Reached(s, actions), Unresolved(s.rows, gates).value;
            && r in t.resumers
            && t.resumers[r] == Resumer(offered, gates, Resolving(|s.rows|, work, [], false))
            && t.rows == s.rows && t.runs == s.runs && t.holder == Some(r)
  {
    hide Unresolved;
    var s1 := After(s, Begin(r, offered, gates));
    var s2 := After(s1, Peek(r));
    var s3 := After(s2, Enter(r));
    assert Enabled(s3, Read(r));
    OneThen(s3, Read(r), []);
    OneThen(s2, Enter(r), [Read(r)] + []);
    OneThen(s1, Peek(r), [Enter(r)] + ([Read(r)] + []));
    actions := [Begin(r, offered, gates)] + ([Peek(r)] + ([Enter(r)] + ([Read(r)] + [])));
    OneThen(s, Begin(r, offered, gates), [Peek(r)] + ([Enter(r)] + ([Read(r)] + [])));
  }

  /** From wherever nobody holds the session, one more resumer can act on what is unresolved: it runs the
      handlers of exactly the calls that run, in order, and records one row that answers them all. */
  lemma {:induction false} ResumeSettles(s: State, r: nat, offered: seq<string>, gates: seq<string>,
                                         handle: Call -> Handled)
    returns (actions: seq<Action>)
    requires s.holder.None? && r !in s.resumers && Unresolved(s.rows, gates).Some?
    ensures Possible(s, actions)
    ensures var t, work := ApprovalRace.Reached(s, actions), Unresolved(s.rows, gates).value;
            var bounded, all := Bounded(offered, work.scope), |work.calls|;
            && r in t.resumers && t.resumers[r].phase.Looping? && t.holder.None?
            && t.runs == s.runs + RunsDue(work, bounded, |s.rows|, all)
            && t.rows == s.rows + [ToolResult(work.results + AnswersTo(work, bounded, handle, all), work.decisions)]
  {
    var first := Opens(s, r, offered, gates);
    var from := ApprovalRace.Reached(s, first);
    assert HasSettled(from, from, r, handle, 0);
    var second := SettlesAll(from, from, r, handle, 0);
    var u := ApprovalRace.Reached(from, second);
    hide Unresolved, AnswersTo, RunsDue, Possible, ApprovalRace.Reached;
    var third := Closes(u, from, r, handle);
    BothRuns(from, second, third);
    BothRuns(s, first, second + third);
    actions := first + (second + third);
  }

  /** With nothing unresolved a resumer goes on at once, whoever holds the session, and changes nothing. */
  lemma NothingToSettle(s: State, r: nat, offered: seq<string>, gates: seq<string>)
    requires r !in s.resumers && Unresolved(s.rows, gates).None?
    ensures var actions := [Begin(r, offered, gates)] + ([Peek(r)] + []);
            Possible(s, actions) &&
            ApprovalRace.Reached(s, actions) == s.(resumers := s.resumers[r := Resumer(offered, gates, Looping)])
  {
    hide Unresolved;
    var s1 := After(s, Begin(r, offered, gates));
    OneThen(s1, Peek(r), []);
    OneThen(s, Begin(r, offered, gates), [Peek(r)] + []);
    assert s1.resumers[r := Resumer(offered, gates, Looping)] == s.resumers[r := Resumer(offered, gates, Looping)];
  }

  lemma Closes(u: State, from: State, r: nat, handle: Call -> Handled) returns (actions: seq<Action>)
    requires r in from.resumers && from.resumers[r].phase.Resolving? && from.holder == Some(r)
    requires HasSettled(u, from, r, handle, |from.resumers[r].phase.work.calls|)
    ensures Possible(u, actions)
    ensures var t, work := ApprovalRace.Reached(u, actions), from.resumers[r].phase.work;
            var bounded := Bounded(from.resumers[r].offered, work.scope);
            && r in t.resumers && t.resumers[r].phase.Looping? && t.holder.None?
            && t.runs == u.runs
            && t.rows == from.rows
                         + [ToolResult(work.results + AnswersTo(work, bounded, handle, |work.calls|), work.decisions)]
  {
    hide Bounded, AnswersTo, RunsDue;
    var v := After(u, Record(r));
    OneThen(v, Leave(r), []);
    OneThen(u, Record(r), [Leave(r)] + []);
    actions := [Record(r)] + ([Leave(r)] + []);
  }

  /** So a call whose approval stands approved, whose tool is offered and in the stored scope, and which
      has no answer yet, can run: and it runs once, for its own approval. */
  lemma {:induction false} ApprovedCallsCanRun(s: State, at: nat, turn: Row, r: nat, offered: seq<string>,
                                               gates: seq<string>, handle: Call -> Handled, call: Call)
    returns (actions: seq<Action>)
    requires Inv(s, at, turn) && s.holder.None? && r !in s.resumers && Open(s.rows, at, turn)
    requires call in turn.calls && call.id in Gated(turn) && call.id !in Answered(s.rows, at)
    requires var approval := Find(ApprovalsOf(turn.requests), call.id);
             && approval.Some?
             && Approved(Find(Decided(s.rows, at), approval.value))
             && InScope(ScopeOf(s.rows), call.name) && call.name in offered
    ensures Possible(s, actions) && Inv(ApprovalRace.Reached(s, actions), at, turn)
    ensures var t := ApprovalRace.Reached(s, actions);
            && Done(t.rows, at, turn)
            && exists i | |s.runs| <= i < |t.runs| ::
                 t.runs[i] == Run(at, call.id, call.name, Find(ApprovalsOf(turn.requests), call.id).value, |s.rows|)
    ensures Unresolved(s.rows, gates).Some?
  {
    var work := WorkOn(s, at, turn, gates, call);
    var bounded := Bounded(offered, work.scope);
    assert Runs(work, bounded, call);
    assert work.calls[..|work.calls|] == work.calls;
    RunIsDue(work, bounded, |s.rows|, |work.calls|, call);
    actions := ResumeSettles(s, r, offered, gates, handle);
    RunKeepsInv(s, at, turn, actions);
    var t := ApprovalRace.Reached(s, actions);
    assert ResumerOk(t, at, turn, r);
    hide Unresolved, Inv, Possible, ApprovalRace.Reached, Decided, ScopeOf, Answered, Gated, Open, Runs, RunsDue;
    Behind(s.runs, RunsDue(work, bounded, |s.rows|, |work.calls|),
           Run(at, call.id, call.name, Find(work.approvals, call.id).value, |s.rows|));
  }

  lemma Behind<T>(a: seq<T>, b: seq<T>, x: T)
    requires x in b
    ensures exists i | |a| <= i < |a + b| :: (a + b)[i] == x
  {
    var j :| 0 <= j < |b| && b[j] == x;
    assert (a + b)[|a| + j] == x;
  }

  lemma WorkOn(s: State, at: nat, turn: Row, gates: seq<string>, call: Call) returns (work: Work)
    requires Inv(s, at, turn) && Open(s.rows, at, turn)
    requires call in turn.calls && call.id in Gated(turn) && call.id !in Answered(s.rows, at)
    ensures Unresolved(s.rows, gates) == Some(work)
    ensures work.turn == at && call in work.calls
    ensures work.approvals == ApprovalsOf(turn.requests) && work.decisions == Decided(s.rows, at)
    ensures work.scope == ScopeOf(s.rows)
  {
    OpenIsLast(s.rows, at, turn);
    UnresolvedIs(s.rows, at, turn, gates);
    var pending := Pending(turn.calls, Answered(s.rows, at), ApprovalsOf(turn.requests), gates);
    assert call in pending;
    hide Unresolved, Answered, Decided, ScopeOf, Pending;
    work := Unresolved(s.rows, gates).value;
  }

  lemma {:induction false} RunIsDue(work: Work, bounded: seq<string>, seen: nat, n: nat, call: Call)
    requires n <= |work.calls| && call in work.calls[..n] && Runs(work, bounded, call)
    ensures Find(work.approvals, call.id).Some?
    ensures Run(work.turn, call.id, call.name, Find(work.approvals, call.id).value, seen) in
            RunsDue(work, bounded, seen, n)
  {
    assert work.calls[..n] == work.calls[..n - 1] + [work.calls[n - 1]];
    if call != work.calls[n - 1] {
      RunIsDue(work, bounded, seen, n - 1, call);
    }
  }
}

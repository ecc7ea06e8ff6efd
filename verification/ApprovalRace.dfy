/** Resumers and approvers racing over one stopped turn. */
module ApprovalRace {
  import opened Dicts
  import opened ThreadRows
  import opened ThreadLaws
  import opened ToolScope
  import opened Approvals
  import opened Wrappers

  // ----- the stopped turn in a thread -----

  /** The turn stands at this place of the view. */
  predicate Stands(rows: seq<Row>, at: nat, turn: Row) {
    var view := View(rows);
    at < |view| && view[at] == turn
  }

  /** Nothing but its answer row stands behind the turn. */
  predicate Open(rows: seq<Row>, at: nat, turn: Row) {
    var view := View(rows);
    Stands(rows, at, turn) && |view| <= at + 2 && (|view| == at + 2 ==> view[at + 1].ToolResult?)
  }

  function Answered(rows: seq<Row>, at: nat): set<string> {
    Keys(AnswerRow(View(rows), at).results)
  }

  /** The decisions that stand as the turn's, latest value each. */
  function Decided(rows: seq<Row>, at: nat): seq<Keyed<Verdict>> {
    Collapse(AnswerRow(View(rows), at).decisions)
  }

  function Ids(calls: seq<Call>): (r: set<string>)
    ensures forall call | call in calls :: call.id in r
  {
    set call | call in calls :: call.id
  }

  /** The calls of the turn that wait for a person. */
  function Gated(turn: Row): (r: set<string>)
    requires turn.Assistant?
  {
    Ids(turn.calls) * Keys(ApprovalsOf(turn.requests))
  }

  predicate Done(rows: seq<Row>, at: nat, turn: Row)
    requires turn.Assistant?
  {
    Gated(turn) <= Answered(rows, at)
  }

  predicate DistinctIds(calls: seq<Call>) {
    forall i, j | 0 <= i < j < |calls| :: calls[i].id != calls[j].id
  }

  // ----- the machine -----

  datatype Phase =
    | Began
    | Waiting
    | Entered
    | Resolving(taken: nat, work: Work, settled: seq<Keyed<Output>>, ran: bool)
    | Recorded
    | Looping
    | Gone

  datatype Resumer = Resumer(offered: seq<string>, gates: seq<string>, phase: Phase)

  /** One call of a tool's handler: for which call of which turn, on which approval, and how much of the
      thread had been read. */
  datatype Run = Run(turn: nat, callId: string, tool: string, approvalId: string, seen: nat)

  datatype State = State(rows: seq<Row>, holder: Option<nat>, resumers: map<nat, Resumer>, runs: seq<Run>)

  datatype Action =
    | Begin(r: nat, offered: seq<string>, gates: seq<string>)
    | Approve(approvalId: string, verdict: Verdict)
    | Peek(r: nat)
    | Enter(r: nat)
    | Read(r: nat)
    | Settle(r: nat, handled: Handled)
    | Record(r: nat)
    | Leave(r: nat)
    | Loop(r: nat, row: Row)
    | Quit(r: nat)

  predicate Holding(phase: Phase) {
    phase.Entered? || phase.Resolving? || phase.Recorded?
  }

  predicate Enabled(s: State, action: Action) {
    match action
    case Begin(r, _, _) => r !in s.resumers
    case Approve(_, _) => true
    case Peek(r) => r in s.resumers && s.resumers[r].phase.Began?
    case Enter(r) => r in s.resumers && s.resumers[r].phase.Waiting? && s.holder.None?
    case Read(r) => r in s.resumers && s.resumers[r].phase.Entered?
    case Settle(r, _) =>
      r in s.resumers
      && s.resumers[r].phase.Resolving?
      && |s.resumers[r].phase.settled| < |s.resumers[r].phase.work.calls|
    case Record(r) =>
      r in s.resumers
      && s.resumers[r].phase.Resolving?
      && |s.resumers[r].phase.settled| == |s.resumers[r].phase.work.calls|
    case Leave(r) => r in s.resumers && s.resumers[r].phase.Recorded?
    case Loop(r, row) =>
      r in s.resumers && s.resumers[r].phase.Looping? && (row.User? || row.Assistant? || row.ToolResult?)
    case Quit(r) => r in s.resumers && !(s.resumers[r].phase.Resolving? && s.resumers[r].phase.ran)
  }

  function Moved(s: State, r: nat, phase: Phase): State
    requires r in s.resumers
  {
    s.(resumers := s.resumers[r := s.resumers[r].(phase := phase)])
  }

  function Settled(s: State, r: nat, handled: Handled): State
    requires Enabled(s, Settle(r, handled))
  {
    var phase := s.resumers[r].phase;
    var work, call := phase.work, phase.work.calls[|phase.settled|];
    var bounded := Bounded(s.resumers[r].offered, work.scope);
    var runs := Runs(work, bounded, call);
    var approval := Find(work.approvals, call.id);
    Moved(s, r, phase.(settled := phase.settled + [AnswerTo(work, bounded, call, handled)], ran := phase.ran || runs))
    .(runs := if runs && approval.Some?
              then s.runs + [Run(work.turn, call.id, call.name, approval.value, phase.taken)]
              else s.runs)
  }

  function After(s: State, action: Action): State
    requires Enabled(s, action)
  {
    match action
    case Begin(r, offered, gates) => s.(resumers := s.resumers[r := Resumer(offered, gates, Began)])
    case Approve(approvalId, verdict) => s.(rows := s.rows + [ToolResult([], [Keyed(approvalId, verdict)])])
    case Peek(r) => Moved(s, r, if Unresolved(s.rows, s.resumers[r].gates).None? then Looping else Waiting)
    case Enter(r) => Moved(s, r, Entered).(holder := Some(r))
    case Read(r) =>
      var work := Unresolved(s.rows, s.resumers[r].gates);
      Moved(s, r, if work.None? then Recorded else Resolving(|s.rows|, work.value, [], false))
    case Settle(r, handled) => Settled(s, r, handled)
    case Record(r) =>
      var phase := s.resumers[r].phase;
      Moved(s, r, Recorded).(rows := s.rows + [Resolution(phase.work, phase.settled)])
    case Leave(r) => Moved(s, r, Looping).(holder := None)
    case Loop(r, row) => s.(rows := s.rows + [row])
    case Quit(r) =>
      Moved(s, r, Gone).(holder := if Holding(s.resumers[r].phase) then None else s.holder)
  }

  /** The thread right after the stop, before anyone resumes. */
  predicate Initial(s: State, at: nat, turn: Row) {
    && Calls(turn)
    && DistinctIds(turn.calls)
    && Open(s.rows, at, turn)
    && s.holder.None?
    && s.resumers == map[]
    && s.runs == []
  }

  predicate Possible(s: State, actions: seq<Action>)
    decreases actions
  {
    actions == [] || (Enabled(s, actions[0]) && Possible(After(s, actions[0]), actions[1..]))
  }

  function Reached(s: State, actions: seq<Action>): State
    requires Possible(s, actions)
    decreases actions
  {
    if actions == [] then s else Reached(After(s, actions[0]), actions[1..])
  }

  // ----- what a row does to the turn -----

  lemma AnyRow(rows: seq<Row>, at: nat, turn: Row, row: Row)
    requires Stands(rows, at, turn) && turn.Assistant? && (row.User? || row.Assistant? || row.ToolResult?)
    ensures Stands(rows + [row], at, turn)
    ensures Answered(rows, at) <= Answered(rows + [row], at)
  {
    ViewEnd(rows, row);
    PushGrows(View(rows), Normal(row));
    AnswerGrows(View(rows), Push(View(rows), Normal(row)), at);
    hide View, Push, AnswerRow, Keys, Grows;
  }

  lemma AnswerGrows(view: seq<Row>, after: seq<Row>, at: nat)
    requires Grows(view, after) && at < |view| && view[at].Assistant?
    ensures after[at] == view[at]
    ensures Keys(AnswerRow(view, at).results) <= Keys(AnswerRow(after, at).results)
  {
    var answer := Answer(view, at + 1);
    if answer.Some? {
      AnswerIs(after, at + 1, answer.value);
    }
  }

  lemma OpenRow(rows: seq<Row>, at: nat, turn: Row, row: Row)
    requires Open(rows, at, turn) && turn.Assistant? && row.ToolResult?
    ensures Open(rows + [row], at, turn)
    ensures Answered(rows + [row], at) == Answered(rows, at) + Keys(row.results)
  {
    ViewEnd(rows, row);
    OpenPush(View(rows), at, row);
    hide View, Push, AnswerRow, Keys;
  }

  lemma OpenPush(view: seq<Row>, at: nat, row: Row)
    requires at < |view| <= at + 2 && view[at].Assistant? && (|view| == at + 2 ==> view[at + 1].ToolResult?)
    requires row.ToolResult?
    ensures var pushed := Push(view, row);
            && at < |pushed| <= at + 2
            && pushed[at] == view[at]
            && (|pushed| == at + 2 ==> pushed[at + 1].ToolResult?)
            && Keys(AnswerRow(pushed, at).results) == Keys(AnswerRow(view, at).results) + Keys(row.results)
  {
    AnswerPushed(view, at, row);
    if |view| == at + 2 {
      AnswerIs(view, at + 1, at + 1);
      FoldKeys(view[at + 1], row);
    } else {
      assert Answer(view, at + 1).None?;
      assert Keys(AnswerRow(view, at).results) == {};
    }
    hide AnswerRow, Keys, Fold;
  }

  /** What a reader who finds this turn unresolved holds. */
  predicate Sees(rows: seq<Row>, at: nat, turn: Row, work: Work)
    requires turn.Assistant?
  {
    && work.approvals == ApprovalsOf(turn.requests)
    && work.decisions == Decided(rows, at)
    && work.scope == ScopeOf(rows)
    && DistinctIds(work.calls)
    && Ids(work.calls) <= Ids(turn.calls)
    && Ids(work.calls) !! Answered(rows, at)
    && Gated(turn) <= Answered(rows, at) + Ids(work.calls)
  }

  lemma {:induction false} PendingIsDistinct(calls: seq<Call>, answered: set<string>, approvals: seq<Keyed<string>>,
                                             gates: seq<string>)
    requires DistinctIds(calls)
    ensures DistinctIds(Pending(calls, answered, approvals, gates))
  {
    if calls != [] {
      PendingIsDistinct(calls[1..], answered, approvals, gates);
      var rest := Pending(calls[1..], answered, approvals, gates);
      forall i | 0 <= i < |rest|
        ensures rest[i].id != calls[0].id
      {
        assert rest[i] in rest;
        assert rest[i] in calls[1..];
      }
    }
  }

  lemma PendingIds(calls: seq<Call>, answered: set<string>, approvals: seq<Keyed<string>>, gates: seq<string>)
    ensures var ids := Ids(Pending(calls, answered, approvals, gates));
            && ids <= Ids(calls)
            && ids !! answered
            && Ids(calls) * Keys(approvals) <= answered + ids
  {
    var pending := Pending(calls, answered, approvals, gates);
    forall id | id in Ids(calls) * Keys(approvals) && id !in answered
      ensures id in Ids(pending)
    {
      var call :| call in calls && call.id == id;
      assert call in pending;
    }
  }

  lemma PendingOfTurn(turn: Row, answered: set<string>, gates: seq<string>)
    requires turn.Assistant? && DistinctIds(turn.calls)
    ensures var pending := Pending(turn.calls, answered, ApprovalsOf(turn.requests), gates);
            && DistinctIds(pending)
            && Ids(pending) <= Ids(turn.calls)
            && Ids(pending) !! answered
            && Gated(turn) <= answered + Ids(pending)
            && (pending == [] ==> Gated(turn) <= answered)
  {
    PendingIsDistinct(turn.calls, answered, ApprovalsOf(turn.requests), gates);
    PendingIds(turn.calls, answered, ApprovalsOf(turn.requests), gates);
    hide ApprovalsOf, DistinctIds, Pending;
  }

  /** An open turn is the last one that called tools. */
  lemma OpenIsLast(rows: seq<Row>, at: nat, turn: Row)
    requires Open(rows, at, turn) && Calls(turn)
    ensures LastTurn(View(rows)) == Some(at)
  {
    hide View;
  }

  lemma UnresolvedIs(rows: seq<Row>, at: nat, turn: Row, gates: seq<string>)
    requires Stands(rows, at, turn) && Calls(turn) && LastTurn(View(rows)) == Some(at)
    ensures var work := Unresolved(rows, gates);
            var pending := Pending(turn.calls, Answered(rows, at), ApprovalsOf(turn.requests), gates);
            if pending == [] then work.None?
            else work == Some(Work(at, pending, Collapse(AnswerRow(View(rows), at).results), Decided(rows, at),
                                   ApprovalsOf(turn.requests), ScopeOf(rows)))
  {
    hide View, Pending, ApprovalsOf, Keys, LastTurn, AnswerRow, ScopeOf, Collapse;
  }

  lemma ReadsTurn(rows: seq<Row>, at: nat, turn: Row, gates: seq<string>)
    requires Stands(rows, at, turn) && Calls(turn) && DistinctIds(turn.calls)
    ensures var work := Unresolved(rows, gates);
            && (work.Some? && work.value.turn == at ==> Sees(rows, at, turn, work.value))
            && (Open(rows, at, turn) && work.Some? ==> work.value.turn == at)
            && (Open(rows, at, turn) && work.None? ==> Done(rows, at, turn))
  {
    PendingOfTurn(turn, Answered(rows, at), gates);
    if Open(rows, at, turn) {
      OpenIsLast(rows, at, turn);
    }
    assert Unresolved(rows, gates).Some? ==> LastTurn(View(rows)) == Some(Unresolved(rows, gates).value.turn);
    hide View, Pending, ApprovalsOf, Ids, Keys, LastTurn, DistinctIds;
    hide Answered, Decided, AnswerRow, ScopeOf, Gated, Open, Unresolved;
    if LastTurn(View(rows)) == Some(at) {
      UnresolvedIs(rows, at, turn, gates);
    }
  }

  // ----- the invariant -----

  predicate Approved(decision: Option<Verdict>) {
    decision.Some? && decision.value.approved
  }

  predicate InScope(scope: Option<Scope>, name: string) {
    scope.Some? && name in scope.value.names
  }

  /** The call was approved, on its own approval id, and its tool was in the stored offer, in what the
      resumer had read under the lock. */
  predicate Entitled(rows: seq<Row>, at: nat, turn: Row, run: Run)
    requires turn.Assistant?
  {
    && run.seen <= |rows|
    && run.callId in Gated(turn)
    && Find(ApprovalsOf(turn.requests), run.callId) == Some(run.approvalId)
    && Approved(Find(Decided(rows[..run.seen], at), run.approvalId))
    && InScope(ScopeOf(rows[..run.seen]), run.tool)
  }

  predicate SettledInOrder(phase: Phase)
    requires phase.Resolving?
  {
    && |phase.settled| <= |phase.work.calls|
    && forall i | 0 <= i < |phase.settled| :: AnswersCall(phase.work.calls[i], phase.settled[i])
  }

  /** A resolver of this turn still sees it as it is: no gated call it holds has been answered since. */
  predicate SeesStill(rows: seq<Row>, at: nat, turn: Row, phase: Phase)
    requires turn.Assistant? && phase.Resolving? && phase.taken <= |rows|
  {
    var work := phase.work;
    && work.approvals == ApprovalsOf(turn.requests)
    && work.decisions == Decided(rows[..phase.taken], at)
    && work.scope == ScopeOf(rows[..phase.taken])
    && DistinctIds(work.calls)
    && Ids(work.calls) <= Ids(turn.calls)
    && Gated(turn) * Ids(work.calls) !! Answered(rows, at)
    && Gated(turn) <= Answered(rows, at) + Ids(work.calls)
  }

  predicate ResolverOk(rows: seq<Row>, at: nat, turn: Row, phase: Phase)
    requires turn.Assistant?
  {
    phase.Resolving? ==>
      && phase.taken <= |rows|
      && SettledInOrder(phase)
      && if phase.work.turn == at then SeesStill(rows, at, turn, phase) else Done(rows, at, turn)
  }

  predicate ResumerOk(s: State, at: nat, turn: Row, r: nat)
    requires turn.Assistant? && r in s.resumers
  {
    var phase := s.resumers[r].phase;
    && (Holding(phase) ==> s.holder == Some(r))
    && (phase.Recorded? || phase.Looping? ==> Done(s.rows, at, turn))
    && ResolverOk(s.rows, at, turn, phase)
  }

  predicate HolderOk(s: State) {
    s.holder.Some? ==> s.holder.value in s.resumers && Holding(s.resumers[s.holder.value].phase)
  }

  /** A call whose handler ran has its answer in the thread, or its resolver is about to record it. */
  predicate Accounted(s: State, at: nat, callId: string) {
    callId in Answered(s.rows, at)
    || (&& s.holder.Some?
        && s.holder.value in s.resumers
        && var phase := s.resumers[s.holder.value].phase;
           phase.Resolving? && phase.ran && phase.work.turn == at && callId in Keys(phase.settled))
  }

  predicate RunsOk(s: State, at: nat, turn: Row)
    requires turn.Assistant?
  {
    && (forall i | 0 <= i < |s.runs| && s.runs[i].turn == at ::
          Entitled(s.rows, at, turn, s.runs[i]) && Accounted(s, at, s.runs[i].callId))
    && forall i, j | 0 <= i < j < |s.runs| && s.runs[i].turn == at && s.runs[j].turn == at ::
         s.runs[i].callId != s.runs[j].callId
  }

  predicate Inv(s: State, at: nat, turn: Row) {
    && Calls(turn)
    && DistinctIds(turn.calls)
    && Stands(s.rows, at, turn)
    && (Done(s.rows, at, turn) || Open(s.rows, at, turn))
    && HolderOk(s)
    && (forall r | r in s.resumers :: ResumerOk(s, at, turn, r))
    && RunsOk(s, at, turn)
  }

  lemma InitialInv(s: State, at: nat, turn: Row)
    requires Initial(s, at, turn)
    ensures Inv(s, at, turn)
  {
  }

  /** The thread grew by rows that leave an unfinished turn's answers alone. */
  lemma RowsGrow(s: State, at: nat, turn: Row, row: Row)
    requires Inv(s, at, turn)
    requires Stands(s.rows + [row], at, turn) && Answered(s.rows, at) <= Answered(s.rows + [row], at)
    requires Done(s.rows, at, turn)
             || (Open(s.rows + [row], at, turn) && Answered(s.rows + [row], at) == Answered(s.rows, at))
    ensures Inv(s.(rows := s.rows + [row]), at, turn)
  {
    var rows := s.rows + [row];
    var s' := s.(rows := rows);
    hide Stands, Open, Answered, Decided, ScopeOf, Gated, DistinctIds, ApprovalsOf, Ids;
    forall r | r in s'.resumers
      ensures ResumerOk(s', at, turn, r)
    {
      assert ResumerOk(s, at, turn, r);
      var phase := s.resumers[r].phase;
      if phase.Resolving? {
        assert rows[..phase.taken] == s.rows[..phase.taken];
      }
    }
    RunsStay(s, s', at, turn);
  }

  lemma RunsStay(s: State, s': State, at: nat, turn: Row)
    requires turn.Assistant? && RunsOk(s, at, turn) && s'.runs == s.runs
    requires |s.rows| <= |s'.rows| && s'.rows[..|s.rows|] == s.rows
    requires forall callId | Accounted(s, at, callId) && callId in Gated(turn) :: Accounted(s', at, callId)
    ensures RunsOk(s', at, turn)
  {
    hide Answered, Decided, ScopeOf, Gated, ApprovalsOf, Accounted;
    forall i | 0 <= i < |s'.runs| && s'.runs[i].turn == at
      ensures Entitled(s'.rows, at, turn, s'.runs[i]) && Accounted(s', at, s'.runs[i].callId)
    {
      var seen := s.runs[i].seen;
      assert s'.rows[..seen] == s.rows[..seen];
    }
  }

  lemma ApproveKeeps(s: State, at: nat, turn: Row, approvalId: string, verdict: Verdict)
    requires Inv(s, at, turn)
    ensures Inv(After(s, Approve(approvalId, verdict)), at, turn)
  {
    var row := ToolResult([], [Keyed(approvalId, verdict)]);
    AnyRow(s.rows, at, turn, row);
    if !Done(s.rows, at, turn) {
      OpenRow(s.rows, at, turn, row);
    }
    hide Inv, Stands, Open, Answered, Done;
    RowsGrow(s, at, turn, row);
  }

  lemma LoopKeeps(s: State, at: nat, turn: Row, r: nat, row: Row)
    requires Inv(s, at, turn) && Enabled(s, Loop(r, row))
    ensures Inv(After(s, Loop(r, row)), at, turn)
  {
    assert ResumerOk(s, at, turn, r);
    hide Inv, Stands, Open, Answered, ResolverOk;
    AnyRow(s.rows, at, turn, row);
    RowsGrow(s, at, turn, row);
  }

  /** A resumer moves without touching the thread or the log. */
  lemma MoveKeeps(s: State, s': State, at: nat, turn: Row, r: nat)
    requires Inv(s, at, turn) && HolderOk(s')
    requires s'.rows == s.rows && s'.runs == s.runs && r in s'.resumers
    requires s'.resumers.Keys == s.resumers.Keys + {r}
    requires forall q | q in s'.resumers && q != r :: s'.resumers[q] == s.resumers[q]
    requires forall q | q in s'.resumers && q != r && Holding(s'.resumers[q].phase) :: s'.holder == s.holder
    requires ResumerOk(s', at, turn, r)
    requires r in s.resumers && s.resumers[r].phase.Resolving? ==> !s.resumers[r].phase.ran
    requires s'.holder == s.holder || s.holder.None? || s.holder == Some(r)
    ensures Inv(s', at, turn)
  {
    hide Stands, Open, Answered, Done, Decided, Gated, DistinctIds, ApprovalsOf, ResolverOk;
    forall q | q in s'.resumers
      ensures ResumerOk(s', at, turn, q)
    {
      if q != r {
        assert ResumerOk(s, at, turn, q);
      }
    }
    RunsStay(s, s', at, turn);
  }

  lemma PeekKeeps(s: State, at: nat, turn: Row, r: nat)
    requires Inv(s, at, turn) && Enabled(s, Peek(r))
    ensures Inv(After(s, Peek(r)), at, turn)
  {
    assert ResumerOk(s, at, turn, r);
    ReadsTurn(s.rows, at, turn, s.resumers[r].gates);
    var s' := After(s, Peek(r));
    hide Stands, Open, Unresolved, Done, ResolverOk, RunsOk, DistinctIds, Sees;
    NotResolving(s'.rows, at, turn, s'.resumers[r].phase);
    assert ResumerOk(s', at, turn, r);
    hide ResumerOk;
    MoveKeeps(s, s', at, turn, r);
  }

  lemma ReadResolver(s: State, at: nat, turn: Row, r: nat)
    requires Inv(s, at, turn) && Enabled(s, Read(r))
    ensures ResumerOk(After(s, Read(r)), at, turn, r)
  {
    assert ResumerOk(s, at, turn, r);
    ReadsTurn(s.rows, at, turn, s.resumers[r].gates);
    var work := Unresolved(s.rows, s.resumers[r].gates);
    hide Stands, Open, Unresolved, Done, DistinctIds, RunsOk, ResolverOk, Sees;
    if work.Some? {
      FreshResolver(s.rows, at, turn, work.value);
    } else {
      NotResolving(s.rows, at, turn, Recorded);
    }
  }

  lemma FreshResolver(rows: seq<Row>, at: nat, turn: Row, work: Work)
    requires turn.Assistant? && if work.turn == at then Sees(rows, at, turn, work) else Done(rows, at, turn)
    ensures ResolverOk(rows, at, turn, Resolving(|rows|, work, [], false))
  {
    assert rows[..|rows|] == rows;
    hide Answered, Decided, ScopeOf, Gated, DistinctIds, ApprovalsOf, Ids;
  }

  lemma ReadKeeps(s: State, at: nat, turn: Row, r: nat)
    requires Inv(s, at, turn) && Enabled(s, Read(r))
    ensures Inv(After(s, Read(r)), at, turn)
  {
    ReadResolver(s, at, turn, r);
    hide Stands, Open, Unresolved, Done, DistinctIds, RunsOk, ResumerOk;
    MoveKeeps(s, After(s, Read(r)), at, turn, r);
  }

  /** The other moves: beginning, taking and leaving the lock, giving up. */
  lemma QuietKeeps(s: State, at: nat, turn: Row, action: Action)
    requires Inv(s, at, turn) && Enabled(s, action)
    requires action.Begin? || action.Enter? || action.Leave? || action.Quit?
    ensures Inv(After(s, action), at, turn)
  {
    var s' := After(s, action);
    HoldersAgree(s, at, turn);
    if action.r in s.resumers {
      assert ResumerOk(s, at, turn, action.r);
    }
    hide Stands, Open, Done, ResolverOk, RunsOk, DistinctIds;
    NotResolving(s'.rows, at, turn, s'.resumers[action.r].phase);
    hide Inv;
    MoveKeeps(s, s', at, turn, action.r);
  }

  lemma HoldersAgree(s: State, at: nat, turn: Row)
    requires Inv(s, at, turn)
    ensures HolderOk(s)
    ensures forall q | q in s.resumers && Holding(s.resumers[q].phase) :: s.holder == Some(q)
  {
    hide Stands, Open, Done, ResolverOk, RunsOk, DistinctIds;
    forall q | q in s.resumers && Holding(s.resumers[q].phase)
      ensures s.holder == Some(q)
    {
      assert ResumerOk(s, at, turn, q);
    }
  }

  lemma NotResolving(rows: seq<Row>, at: nat, turn: Row, phase: Phase)
    requires turn.Assistant? && !phase.Resolving?
    ensures ResolverOk(rows, at, turn, phase)
  {
  }

  // ----- settling one call -----

  lemma SettledKeys(phase: Phase)
    requires phase.Resolving? && SettledInOrder(phase)
    ensures forall key | key in Keys(phase.settled) ::
              exists i | 0 <= i < |phase.settled| :: phase.work.calls[i].id == key
  {
    forall key | key in Keys(phase.settled)
      ensures exists i | 0 <= i < |phase.settled| :: phase.work.calls[i].id == key
    {
      var i := KeyAt(phase.settled, key);
      assert phase.work.calls[i].id == key;
    }
  }

  lemma {:induction false} KeyAt<V>(s: seq<Keyed<V>>, key: string) returns (i: nat)
    requires key in Keys(s)
    ensures i < |s| && s[i].key == key
  {
    if s[0].key == key {
      i := 0;
    } else {
      i := KeyAt(s[1..], key);
      i := i + 1;
    }
  }

  lemma NextIsNew(rows: seq<Row>, at: nat, turn: Row, phase: Phase)
    requires turn.Assistant? && phase.Resolving? && phase.taken <= |rows| && SeesStill(rows, at, turn, phase)
    requires SettledInOrder(phase) && |phase.settled| < |phase.work.calls|
    ensures var id := phase.work.calls[|phase.settled|].id;
            id !in Keys(phase.settled) && (id in Gated(turn) ==> id !in Answered(rows, at))
  {
    SettledKeys(phase);
    var call := phase.work.calls[|phase.settled|];
    assert call in phase.work.calls;
    hide Keys, Gated, Answered, Decided;
  }

  lemma RunIsEntitled(rows: seq<Row>, at: nat, turn: Row, phase: Phase, bounded: seq<string>)
    requires turn.Assistant? && phase.Resolving? && phase.taken <= |rows| && SeesStill(rows, at, turn, phase)
    requires |phase.settled| < |phase.work.calls| && phase.work.turn == at
    requires Runs(phase.work, bounded, phase.work.calls[|phase.settled|])
    requires forall name | name in bounded :: InScope(phase.work.scope, name)
    ensures var call := phase.work.calls[|phase.settled|];
            && Find(phase.work.approvals, call.id).Some?
            && Entitled(rows, at, turn,
                     Run(at, call.id, call.name, Find(phase.work.approvals, call.id).value, phase.taken))
  {
    var call := phase.work.calls[|phase.settled|];
    assert call in phase.work.calls;
    assert call.id in Ids(turn.calls);
    hide Answered, Decided, ScopeOf, ApprovalsOf, Ids, DistinctIds;
  }

  lemma SettleResolver(rows: seq<Row>, at: nat, turn: Row, phase: Phase, answer: Keyed<Output>, ran: bool)
    requires turn.Assistant? && phase.Resolving? && ResolverOk(rows, at, turn, phase)
    requires |phase.settled| < |phase.work.calls| && AnswersCall(phase.work.calls[|phase.settled|], answer)
    ensures ResolverOk(rows, at, turn, phase.(settled := phase.settled + [answer], ran := ran))
  {
    hide Answered, Decided, ScopeOf, ApprovalsOf, Ids, DistinctIds, Gated, Done;
  }

  lemma SettleAccounts(s: State, at: nat, turn: Row, r: nat, handled: Handled)
    requires Inv(s, at, turn) && Enabled(s, Settle(r, handled))
    ensures var s', phase := After(s, Settle(r, handled)), s.resumers[r].phase;
            var work, call := phase.work, phase.work.calls[|phase.settled|];
            && (forall callId | Accounted(s, at, callId) :: Accounted(s', at, callId))
            && (work.turn == at && Runs(work, Bounded(s.resumers[r].offered, work.scope), call) ==>
                  Accounted(s', at, call.id))
  {
    assert ResumerOk(s, at, turn, r);
    var phase := s.resumers[r].phase;
    var work, call := phase.work, phase.work.calls[|phase.settled|];
    KeysConcat(phase.settled, [AnswerTo(work, Bounded(s.resumers[r].offered, work.scope), call, handled)]);
    hide Answered, Bounded, AnswerTo, Stands, Open, Done, ResolverOk, RunsOk, DistinctIds;
  }

  lemma SettleRuns(s: State, at: nat, turn: Row, r: nat, handled: Handled)
    requires Inv(s, at, turn) && Enabled(s, Settle(r, handled))
    ensures RunsOk(After(s, Settle(r, handled)), at, turn)
  {
    assert ResumerOk(s, at, turn, r);
    var s', phase := After(s, Settle(r, handled)), s.resumers[r].phase;
    var work, call := phase.work, phase.work.calls[|phase.settled|];
    var bounded := Bounded(s.resumers[r].offered, work.scope);
    SettleAccounts(s, at, turn, r, handled);
    if Runs(work, bounded, call) {
      var run := s'.runs[|s.runs|];
      if work.turn == at {
        NextIsNew(s.rows, at, turn, phase);
        RunIsEntitled(s.rows, at, turn, phase, bounded);
        assert !Accounted(s, at, call.id);
      }
      hide ResolverOk, Bounded, DistinctIds, Entitled, Accounted, Gated, Stands, Open, Done;
      RunsGrow(s, s', at, turn, run);
    } else {
      hide ResolverOk, Bounded, DistinctIds, Entitled, Accounted, Gated, Stands, Open, Done;
      assert s'.rows[..|s.rows|] == s.rows;
      RunsStay(s, s', at, turn);
    }
  }

  lemma RunsGrow(s: State, s': State, at: nat, turn: Row, run: Run)
    requires turn.Assistant? && RunsOk(s, at, turn) && s'.rows == s.rows && s'.runs == s.runs + [run]
    requires forall callId | Accounted(s, at, callId) :: Accounted(s', at, callId)
    requires run.turn == at ==> && Entitled(s.rows, at, turn, run)
                                && Accounted(s', at, run.callId)
                                && !Accounted(s, at, run.callId)
    ensures RunsOk(s', at, turn)
  {
    hide Entitled, Accounted;
  }

  lemma SettleKeeps(s: State, at: nat, turn: Row, r: nat, handled: Handled)
    requires Inv(s, at, turn) && Enabled(s, Settle(r, handled))
    ensures Inv(After(s, Settle(r, handled)), at, turn)
  {
    assert ResumerOk(s, at, turn, r);
    SettleRuns(s, at, turn, r, handled);
    var s', phase := After(s, Settle(r, handled)), s.resumers[r].phase;
    var bounded := Bounded(s.resumers[r].offered, phase.work.scope);
    var call := phase.work.calls[|phase.settled|];
    SettleResolver(s.rows, at, turn, phase, AnswerTo(phase.work, bounded, call, handled),
                   phase.ran || Runs(phase.work, bounded, call));
    hide Stands, Open, Done, ResolverOk, RunsOk, DistinctIds, AnswerTo, Bounded, Runs;
    forall q | q in s'.resumers
      ensures ResumerOk(s', at, turn, q)
    {
      assert ResumerOk(s, at, turn, q);
    }
  }

  // ----- recording the resolution -----

  lemma RecordFinishes(s: State, at: nat, turn: Row, r: nat)
    requires Inv(s, at, turn) && Enabled(s, Record(r))
    ensures var rows := After(s, Record(r)).rows;
            && Stands(rows, at, turn)
            && Done(rows, at, turn)
            && Answered(s.rows, at) <= Answered(rows, at)
  {
    assert ResumerOk(s, at, turn, r);
    var phase := s.resumers[r].phase;
    var work, row := phase.work, Resolution(phase.work, phase.settled);
    AnyRow(s.rows, at, turn, row);
    if !Done(s.rows, at, turn) {
      OpenRow(s.rows, at, turn, row);
      KeysConcat(work.results, phase.settled);
      assert Ids(work.calls) <= Keys(phase.settled) by {
        forall call | call in work.calls
          ensures call.id in Keys(phase.settled)
        {
          AnsweredKeys(work.calls, phase.settled, call);
        }
      }
    }
  }

  lemma RecordKeeps(s: State, at: nat, turn: Row, r: nat)
    requires Inv(s, at, turn) && Enabled(s, Record(r))
    ensures Inv(After(s, Record(r)), at, turn)
  {
    RecordFinishes(s, at, turn, r);
    var s' := After(s, Record(r));
    assert s'.rows[..|s.rows|] == s.rows;
    forall q | q in s'.resumers
      ensures ResumerOk(s', at, turn, q)
    {
      assert ResumerOk(s, at, turn, q) && ResumerOk(s, at, turn, r);
      NotResolving(s'.rows, at, turn, s'.resumers[q].phase);
    }
    hide Answered, Decided, ScopeOf, ApprovalsOf, Ids, DistinctIds, Stands, Open, Resolution;
    assert forall callId | callId in Gated(turn) :: Accounted(s', at, callId);
    RunsStay(s, s', at, turn);
  }

  // ----- every step, every run -----

  lemma StepKeepsInv(s: State, at: nat, turn: Row, action: Action)
    requires Inv(s, at, turn) && Enabled(s, action)
    ensures Inv(After(s, action), at, turn)
  {
    hide Inv, After, Enabled;
    match action
    case Approve(approvalId, verdict) => ApproveKeeps(s, at, turn, approvalId, verdict);
    case Peek(r) => PeekKeeps(s, at, turn, r);
    case Read(r) => ReadKeeps(s, at, turn, r);
    case Settle(r, handled) => SettleKeeps(s, at, turn, r, handled);
    case Record(r) => RecordKeeps(s, at, turn, r);
    case Loop(r, row) => LoopKeeps(s, at, turn, r, row);
    case _ => QuietKeeps(s, at, turn, action);
  }

  lemma {:induction false} RunKeepsInv(s: State, at: nat, turn: Row, actions: seq<Action>)
    requires Inv(s, at, turn) && Possible(s, actions)
    ensures Inv(Reached(s, actions), at, turn)
    decreases actions
  {
    if actions != [] {
      StepKeepsInv(s, at, turn, actions[0]);
      RunKeepsInv(After(s, actions[0]), at, turn, actions[1..]);
    }
  }

  /** Over any racing resumers and approvers that begin after the stop, the handler of each call of the
      turn runs at most once, and only on an approval given for that call's own approval id. */
  lemma HandlersRunAtMostOnce(s: State, at: nat, turn: Row, actions: seq<Action>)
    requires Initial(s, at, turn) && Possible(s, actions)
    ensures var runs := Reached(s, actions).runs;
            && (forall i, j | 0 <= i < j < |runs| && runs[i].turn == at && runs[j].turn == at ::
                  runs[i].callId != runs[j].callId)
            && forall i | 0 <= i < |runs| && runs[i].turn == at ::
                 Entitled(Reached(s, actions).rows, at, turn, runs[i])
  {
    InitialInv(s, at, turn);
    RunKeepsInv(s, at, turn, actions);
  }

  function RunsOf(runs: seq<Run>, at: nat): seq<Run> {
    if runs == [] then []
    else RunsOf(runs[..|runs| - 1], at) + if runs[|runs| - 1].turn == at then [runs[|runs| - 1]] else []
  }

  /** A settled turn stays settled, and no handler runs for it again. */
  lemma DoneStep(s: State, at: nat, turn: Row, action: Action)
    requires Inv(s, at, turn) && Done(s.rows, at, turn) && Enabled(s, action)
    ensures var s' := After(s, action);
            Done(s'.rows, at, turn) && RunsOf(s'.runs, at) == RunsOf(s.runs, at)
  {
    match action
    case Approve(approvalId, verdict) =>
      AnyRow(s.rows, at, turn, ToolResult([], [Keyed(approvalId, verdict)]));
    case Loop(r, row) => AnyRow(s.rows, at, turn, row);
    case Record(r) => RecordFinishes(s, at, turn, r);
    case Settle(r, handled) => DoneSettle(s, at, turn, r, handled);
    case _ =>
  }

  lemma DoneSettle(s: State, at: nat, turn: Row, r: nat, handled: Handled)
    requires Inv(s, at, turn) && Done(s.rows, at, turn) && Enabled(s, Settle(r, handled))
    ensures RunsOf(After(s, Settle(r, handled)).runs, at) == RunsOf(s.runs, at)
  {
    assert ResumerOk(s, at, turn, r);
    var s', phase := After(s, Settle(r, handled)), s.resumers[r].phase;
    var work, call := phase.work, phase.work.calls[|phase.settled|];
    var bounded := Bounded(s.resumers[r].offered, work.scope);
    if work.turn == at && Runs(work, bounded, call) {
      RunIsEntitled(s.rows, at, turn, phase, bounded);
      assert false;
    }
    if |s'.runs| > |s.runs| {
      assert s'.runs[..|s'.runs| - 1] == s.runs;
    }
  }

  lemma {:induction false} DoneRun(s: State, at: nat, turn: Row, actions: seq<Action>)
    requires Inv(s, at, turn) && Done(s.rows, at, turn) && Possible(s, actions)
    ensures RunsOf(Reached(s, actions).runs, at) == RunsOf(s.runs, at)
    decreases actions
  {
    if actions != [] {
      DoneStep(s, at, turn, actions[0]);
      StepKeepsInv(s, at, turn, actions[0]);
      DoneRun(After(s, actions[0]), at, turn, actions[1..]);
    }
  }

  /** Once any resumer has got past resolution the turn's handler runs are final: a call it denied, or
      found undecided, runs on no later send, whatever is decided afterwards. */
  lemma SettledForGood(s: State, at: nat, turn: Row, actions: seq<Action>, r: nat, more: seq<Action>)
    requires Initial(s, at, turn) && Possible(s, actions)
    requires var now := Reached(s, actions);
             && r in now.resumers
             && (now.resumers[r].phase.Recorded? || now.resumers[r].phase.Looping?)
             && Possible(now, more)
    ensures var now := Reached(s, actions);
            Done(now.rows, at, turn) && RunsOf(Reached(now, more).runs, at) == RunsOf(now.runs, at)
  {
    InitialInv(s, at, turn);
    RunKeepsInv(s, at, turn, actions);
    var now := Reached(s, actions);
    assert ResumerOk(now, at, turn, r);
    DoneRun(now, at, turn, more);
  }

  /** A failed step asks for no approvals, so none of its calls ever runs. */
  lemma UngatedTurnNeverRuns(s: State, at: nat, turn: Row, actions: seq<Action>)
    requires Initial(s, at, turn) && turn.requests == [] && Possible(s, actions)
    ensures RunsOf(Reached(s, actions).runs, at) == []
  {
    InitialInv(s, at, turn);
    assert Asks(turn.requests) == [];
    assert Gated(turn) == {};
    DoneRun(s, at, turn, actions);
  }

  // ----- which decision stands -----

  /** The decision that stands for an approval is the last one recorded for it since the stop. */
  lemma LastDecisionStands(before: seq<Row>, turn: Row, tail: seq<Row>, approvalId: string)
    requires turn.Assistant? && OnlyResults(tail)
    ensures Find(Decided(before + [turn] + tail, |View(before)|), approvalId) == LastValue(Decisions(tail), approvalId)
  {
    ViewEnd(before, turn);
    ViewOfTail(before + [turn], tail);
    var view, at := View(before + [turn] + tail), |View(before)|;
    CollapseIsFirstPlaceLastValue(Decisions(tail), approvalId);
    if tail == [] {
      assert Answer(view, at + 1).None?;
    } else {
      AnswerIs(view, at + 1, at + 1);
      OneRowDecides(tail);
    }
  }

  lemma OneRowDecides(run: seq<Row>)
    requires run != [] && OnlyResults(run)
    ensures Collapse(OneRow(run).decisions) == Collapse(Decisions(run))
  {
    if |run| == 1 {
      assert run[..0] == [];
      assert Decisions(run) == run[0].decisions;
    } else {
      DistinctStays(Collapse(Decisions(run)));
    }
  }
}
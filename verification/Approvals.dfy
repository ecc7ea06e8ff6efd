/** The calls a stopped turn still waits for, and what answering them records. */
module Approvals {
  import opened Dicts
  import opened ThreadRows
  import opened ThreadLaws
  import opened ToolScope
  import opened Wrappers

  predicate NeedsApproval(gates: seq<string>, name: string) {
    "*" in gates || name in gates
  }

  predicate Calls(row: Row) {
    row.Assistant? && row.calls != []
  }

  /** Where the last turn that called tools stands in a view. */
  function LastTurn(view: seq<Row>): (r: Option<nat>)
    ensures r.Some? ==> r.value < |view| && Calls(view[r.value])
    ensures forall i | 0 <= i < |view| && Calls(view[i]) :: r.Some? && i <= r.value
  {
    if view == [] then None
    else if Calls(view[|view| - 1]) then Some(|view| - 1)
    else LastTurn(view[..|view| - 1])
  }

  /** The first tool result row from a place on. */
  function Answer(view: seq<Row>, from: nat): (r: Option<nat>)
    ensures r.Some? ==> from <= r.value < |view| && view[r.value].ToolResult?
    ensures forall i | from <= i < (if r.Some? then r.value else |view|) :: !view[i].ToolResult?
    decreases |view| - from
  {
    if from >= |view| then None else if view[from].ToolResult? then Some(from) else Answer(view, from + 1)
  }

  /** What stands as the answer to a turn: only the first tool result row behind it. */
  function AnswerRow(view: seq<Row>, turn: nat): (r: Row)
    ensures r.ToolResult?
  {
    var at := Answer(view, turn + 1);
    if at.Some? then view[at.value] else ToolResult([], [])
  }

  function Asks(requests: seq<Request>): (r: seq<Keyed<string>>)
    ensures |r| == |requests|
  {
    seq(|requests|, i requires 0 <= i < |requests| => Keyed(requests[i].callId, requests[i].approvalId))
  }

  /** The approval each call waits for. */
  function ApprovalsOf(requests: seq<Request>): seq<Keyed<string>> {
    Collapse(Asks(requests))
  }

  predicate Waits(call: Call, answered: set<string>, approvals: seq<Keyed<string>>, gates: seq<string>) {
    call.id !in answered && (call.id in Keys(approvals) || NeedsApproval(gates, call.name))
  }

  function Pending(calls: seq<Call>, answered: set<string>, approvals: seq<Keyed<string>>, gates: seq<string>)
    : (r: seq<Call>)
    ensures forall call :: call in r <==> call in calls && Waits(call, answered, approvals, gates)
  {
    if calls == [] then []
    else
      (if Waits(calls[0], answered, approvals, gates) then [calls[0]] else [])
      + Pending(calls[1..], answered, approvals, gates)
  }

  datatype Work = Work(
    turn: nat,
    calls: seq<Call>,
    results: seq<Keyed<Output>>,
    decisions: seq<Keyed<Verdict>>,
    approvals: seq<Keyed<string>>,
    scope: Option<Scope>)

  function Unresolved(rows: seq<Row>, gates: seq<string>): (r: Option<Work>)
    ensures r.Some? ==> r.value.calls != []
  {
    var view := View(rows);
    var turn := LastTurn(view);
    if turn.None? then None
    else
      var assistant, answer := view[turn.value], AnswerRow(view, turn.value);
      var approvals := ApprovalsOf(assistant.requests);
      var calls := Pending(assistant.calls, Keys(answer.results), approvals, gates);
      if calls == [] then None
      else
        Some(Work(turn.value, calls, Collapse(answer.results), Collapse(answer.decisions), approvals, ScopeOf(rows)))
  }

  /** Pending calls keep their order and their number. */
  lemma {:induction false} PendingSplits(calls: seq<Call>, more: seq<Call>, answered: set<string>,
                                         approvals: seq<Keyed<string>>, gates: seq<string>)
    ensures Pending(calls + more, answered, approvals, gates) ==
            Pending(calls, answered, approvals, gates) + Pending(more, answered, approvals, gates)
  {
    if calls == [] {
      assert calls + more == more;
    } else {
      assert (calls + more)[1..] == calls[1..] + more;
      PendingSplits(calls[1..], more, answered, approvals, gates);
    }
  }

  /** `answer` is the first tool result row behind the turn, or an empty one when there is none. */
  predicate AnswersFirst(view: seq<Row>, turn: nat, answer: Row) {
    if exists k | turn < k < |view| :: view[k].ToolResult? then
      exists k | turn < k < |view| ::
        && view[k].ToolResult?
        && (forall i | turn < i < k :: !view[i].ToolResult?)
        && answer == view[k]
    else answer == ToolResult([], [])
  }

  /** A person has to allow this call of the turn: an approval was asked for it, or the mode gates its
      tool, by name or with all others. */
  predicate NeedsPerson(turn: Row, gates: seq<string>, call: Call)
    requires turn.Assistant?
  {
    (exists r | r in turn.requests :: r.callId == call.id) || "*" in gates || call.name in gates
  }

  /** The approval asked for last for a call, if any was. */
  predicate LatestRequest(requests: seq<Request>, callId: string, approval: Option<string>) {
    if approval.None? then forall r | r in requests :: r.callId != callId
    else
      exists i | 0 <= i < |requests| ::
        requests[i] == Request(approval.value, callId) && forall j | i < j < |requests| :: requests[j].callId != callId
  }

  /** Work is reported for a turn exactly when it is the last that called tools and one of its calls
      needs a person and has no result, where only the first tool result row behind it counts as its
      answer.  The work holds those calls, the latest result, decision and approval of each id, and the
      scope stored with the turn. */
  lemma {:induction false} UnresolvedTells(rows: seq<Row>, gates: seq<string>, turn: nat, answer: Row)
    requires var view := View(rows);
             && turn < |view|
             && view[turn].Assistant? && view[turn].calls != []
             && (forall i | turn < i < |view| :: view[i].Assistant? ==> view[i].calls == [])
             && answer.ToolResult? && AnswersFirst(view, turn, answer)
    ensures var row, work := View(rows)[turn], Unresolved(rows, gates);
            && (work.None? <==>
                  forall call | call in row.calls :: call.id in Keys(answer.results) || !NeedsPerson(row, gates, call))
            && (work.Some? ==>
                  && work.value.turn == turn
                  && (forall call :: call in work.value.calls <==>
                        && call in row.calls
                        && call.id !in Keys(answer.results)
                        && NeedsPerson(row, gates, call))
                  && (forall id :: Find(work.value.results, id) == LastValue(answer.results, id))
                  && (forall id :: Find(work.value.decisions, id) == LastValue(answer.decisions, id))
                  && (forall id :: LatestRequest(row.requests, id, Find(work.value.approvals, id)))
                  && work.value.scope == ScopeOf(rows))
  {
    var view := View(rows);
    var row := view[turn];
    var approvals, answered := ApprovalsOf(row.requests), Keys(answer.results);
    LastTurnIs(view, turn);
    AnsweredByFirst(view, turn, answer);
    forall id: string
      ensures Find(Collapse(answer.results), id) == LastValue(answer.results, id)
      ensures Find(Collapse(answer.decisions), id) == LastValue(answer.decisions, id)
      ensures LatestRequest(row.requests, id, Find(approvals, id))
    {
      CollapseIsFirstPlaceLastValue(answer.results, id);
      CollapseIsFirstPlaceLastValue(answer.decisions, id);
      ApprovalIsLatest(row.requests, id);
    }
    forall call: Call
      ensures Waits(call, answered, approvals, gates) <==> call.id !in answered && NeedsPerson(row, gates, call)
    {
      WaitsIs(row, answered, gates, call);
    }
    hide View, LastTurn, AnswerRow, ApprovalsOf, Waits, Keys, AnswersFirst;
    hide NeedsPerson, LatestRequest, Collapse, LastValue;
    EmptyWhenNothingWaits(row.calls, answered, approvals, gates);
    hide Pending;
  }

  lemma {:induction false} ApprovalIsLatest(requests: seq<Request>, callId: string)
    ensures LatestRequest(requests, callId, Find(ApprovalsOf(requests), callId))
  {
    CollapseIsFirstPlaceLastValue(Asks(requests), callId);
    LastAsk(requests, callId);
  }

  lemma {:induction false} LastAsk(requests: seq<Request>, callId: string)
    ensures LatestRequest(requests, callId, LastValue(Asks(requests), callId))
    decreases |requests|
  {
    if requests != [] {
      var before, last := requests[..|requests| - 1], requests[|requests| - 1];
      assert requests == before + [last];
      assert Asks(requests)[..|requests| - 1] == Asks(before);
      LastAsk(before, callId);
      if last.callId != callId && LastValue(Asks(before), callId).Some? {
        var i :| 0 <= i < |before| && before[i] == Request(LastValue(Asks(before), callId).value, callId)
                 && forall j | i < j < |before| :: before[j].callId != callId;
        assert requests[i] == before[i];
      }
    }
  }

  lemma WaitsIs(turn: Row, answered: set<string>, gates: seq<string>, call: Call)
    requires turn.Assistant?
    ensures Waits(call, answered, ApprovalsOf(turn.requests), gates) <==>
            call.id !in answered && NeedsPerson(turn, gates, call)
  {
    ApprovalIsLatest(turn.requests, call.id);
    hide ApprovalsOf;
  }

  lemma EmptyWhenNothingWaits(calls: seq<Call>, answered: set<string>, approvals: seq<Keyed<string>>,
                              gates: seq<string>)
    ensures Pending(calls, answered, approvals, gates) == [] <==>
            forall call | call in calls :: !Waits(call, answered, approvals, gates)
  {
    var pending := Pending(calls, answered, approvals, gates);
    hide Waits, Pending;
    if pending != [] {
      assert pending[0] in pending;
    }
  }

  lemma LastTurnIs(view: seq<Row>, turn: nat)
    requires turn < |view| && Calls(view[turn]) && forall i | turn < i < |view| :: !Calls(view[i])
    ensures LastTurn(view) == Some(turn)
  {
    hide Calls;
  }

  lemma AnsweredByFirst(view: seq<Row>, turn: nat, answer: Row)
    requires turn < |view|
    requires AnswersFirst(view, turn, answer)
    ensures answer == AnswerRow(view, turn)
  {
    if exists k | turn < k < |view| :: view[k].ToolResult? {
      var k :| turn < k < |view|
               && view[k].ToolResult?
               && (forall i | turn < i < k :: !view[i].ToolResult?)
               && answer == view[k];
      AnswerIs(view, turn + 1, k);
    }
  }

  // ----- answering -----

  /** What a handler did: gave a result, failed, or refused the call as not authorized. */
  datatype Handled = Gave(text: string) | Failed(message: string) | Refused

  function DecisionFor(work: Work, call: Call): Option<Verdict> {
    var approval := Find(work.approvals, call.id);
    if approval.None? then None else Find(work.decisions, approval.value)
  }

  /** The handler is called for this call. */
  predicate Runs(work: Work, bounded: seq<string>, call: Call) {
    var decision := DecisionFor(work, call);
    decision.Some? && decision.value.approved && call.name in bounded
  }

  function AnswerTo(work: Work, bounded: seq<string>, call: Call, handled: Handled): (r: Keyed<Output>)
    ensures AnswersCall(call, r)
  {
    var decision := DecisionFor(work, call);
    var text :=
      if decision.None? then "No approval response provided"
      else if !decision.value.approved then Stated(decision.value.reason)
      else if call.name !in bounded then "Not run: " + call.name + " is not available to this run."
      else
        match handled
        case Gave(text) => text
        case Failed(message) => "The tool failed: " + message
        case Refused => "Not run: this call to " + call.name + " is not authorized.";
    Keyed(call.id, Output(call.name, call.arguments, text))
  }

  /** A denial without words, or with empty ones, is given the standard ones. */
  function Stated(reason: Option<string>): string {
    if reason.Some? && reason.value != "" then reason.value else "User denied tool execution"
  }

  /** The person's decision on the call's own approval says what its answer is: the handler's outcome
      exactly when the call was approved and its tool is within bounds; otherwise the person's words, or
      why it did not run. */
  lemma HandlerShowsIffRun(work: Work, bounded: seq<string>, call: Call, handled: Handled)
    ensures Runs(work, bounded, call) <==>
            exists h, g :: AnswerTo(work, bounded, call, h) != AnswerTo(work, bounded, call, g)
    ensures var approval := Find(work.approvals, call.id);
            var decision := if approval.None? then None else Find(work.decisions, approval.value);
            var text := AnswerTo(work, bounded, call, handled).value.text;
            && (Runs(work, bounded, call) <==>
                  decision.Some? && decision.value.approved && exists i | 0 <= i < |bounded| :: bounded[i] == call.name)
            && (decision.None? ==> text == "No approval response provided")
            && (decision.Some? && !decision.value.approved ==>
                  text == if decision.value.reason in {None, Some("")} then "User denied tool execution"
                          else decision.value.reason.value)
            && (decision.Some? && decision.value.approved && call.name !in bounded ==>
                  text == "Not run: " + call.name + " is not available to this run.")
            && (Runs(work, bounded, call) ==>
                  && (handled.Gave? ==> text == handled.text)
                  && (handled.Failed? ==> text == "The tool failed: " + handled.message)
                  && (handled.Refused? ==> text == "Not run: this call to " + call.name + " is not authorized."))
  {
    var a, b := Gave("a"), Gave("b");
    assert Runs(work, bounded, call) ==> AnswerTo(work, bounded, call, a) != AnswerTo(work, bounded, call, b) by {
      assert "a"[0] != "b"[0];
    }
  }

  predicate AnswersCall(call: Call, answer: Keyed<Output>) {
    answer.key == call.id && answer.value.tool == call.name && answer.value.arguments == call.arguments
  }

  /** Some answer to each of the calls, in their order. */
  predicate Answers(calls: seq<Call>, settled: seq<Keyed<Output>>) {
    |settled| == |calls| && forall i | 0 <= i < |calls| :: AnswersCall(calls[i], settled[i])
  }

  function Resolution(work: Work, settled: seq<Keyed<Output>>): (r: Row)
    ensures r.ToolResult?
  {
    ToolResult(work.results + settled, work.decisions)
  }

  // ----- when a resolution settles the turn -----

  lemma {:induction false} KeyOf<V>(s: seq<Keyed<V>>, i: nat)
    requires i < |s|
    ensures s[i].key in Keys(s)
  {
    if i > 0 {
      KeyOf(s[1..], i - 1);
    }
  }

  lemma AnsweredKeys(calls: seq<Call>, settled: seq<Keyed<Output>>, call: Call)
    requires Answers(calls, settled) && call in calls
    ensures call.id in Keys(settled)
  {
    var i :| 0 <= i < |calls| && calls[i] == call;
    KeyOf(settled, i);
  }

  lemma LastTurnPushed(view: seq<Row>, row: Row)
    requires row.ToolResult?
    ensures LastTurn(Push(view, row)) == LastTurn(view)
  {
    var pushed := Push(view, row);
    assert forall i | 0 <= i < |pushed| && Calls(pushed[i]) :: i < |view| && view[i] == pushed[i];
    assert forall i | 0 <= i < |view| && Calls(view[i]) :: pushed[i] == view[i];
  }

  /** An answer lands where it is looked for when nothing but its own row stands behind the turn's first
      answer; otherwise the turn is answered by the same row as before. */
  lemma AnswerPushed(view: seq<Row>, turn: nat, row: Row)
    requires turn < |view| && view[turn].Assistant? && row.ToolResult?
    ensures var at := Answer(view, turn + 1);
            var now := AnswerRow(Push(view, row), turn);
            if at.None? then now == row
            else if at.value == |view| - 1 then now == Fold(view[at.value], row)
            else now == view[at.value]
  {
    hide Fold;
    var at, pushed := Answer(view, turn + 1), Push(view, row);
    if at.None? {
      assert pushed == view + [row];
      AnswerIs(pushed, turn + 1, |view|);
    } else {
      AnswerIs(pushed, turn + 1, at.value);
    }
  }

  lemma {:induction false} AnswerIs(view: seq<Row>, from: nat, at: nat)
    requires from <= at < |view| && view[at].ToolResult? && forall i | from <= i < at :: !view[i].ToolResult?
    ensures Answer(view, from) == Some(at)
    decreases at - from
  {
    if from < at {
      AnswerIs(view, from + 1, at);
    }
  }

  /** Nothing is left once a resolution is recorded, exactly when the turn had no answer row yet or its
      answer row is the last one. */
  lemma ResolutionSettles(rows: seq<Row>, gates: seq<string>, settled: seq<Keyed<Output>>)
    requires Unresolved(rows, gates).Some? && Answers(Unresolved(rows, gates).value.calls, settled)
    ensures var view, work := View(rows), Unresolved(rows, gates).value;
            var at := Answer(view, work.turn + 1);
            Unresolved(rows + [Resolution(work, settled)], gates).None? <==> at.None? || at.value == |view| - 1
  {
    var view, work := View(rows), Unresolved(rows, gates).value;
    var turn, row := work.turn, Resolution(work, settled);
    var assistant, was := view[turn], AnswerRow(view, turn);
    var at := Answer(view, turn + 1);
    assert work.calls == Pending(assistant.calls, Keys(was.results), work.approvals, gates);
    AfterRow(rows, row, gates);
    if at.None? || at.value == |view| - 1 {
      KeysConcat(work.results, settled);
      if at.Some? {
        FoldKeys(was, row);
      }
      var now := if at.None? then row else Fold(was, row);
      NothingLeft(assistant.calls, work.calls, settled, Keys(was.results), Keys(now.results), work.approvals, gates);
    }
    hide Keys, Pending, View, Unresolved, Push, Fold;
  }

  /** A tool result row more: the same turn is asked about, and its answer is what it was unless the row
      lands there. */
  lemma AfterRow(rows: seq<Row>, row: Row, gates: seq<string>)
    requires Unresolved(rows, gates).Some? && row.ToolResult?
    ensures var view, turn := View(rows), Unresolved(rows, gates).value.turn;
            var at, was := Answer(view, turn + 1), AnswerRow(view, turn);
            var now := if at.None? then row else if at.value == |view| - 1 then Fold(was, row) else was;
            Unresolved(rows + [row], gates).None? <==>
              Pending(view[turn].calls, Keys(now.results), ApprovalsOf(view[turn].requests), gates) == []
  {
    hide View, Push, LastTurn, Answer, Pending, Keys, ApprovalsOf, Fold, Unresolved;
    var view, turn := View(rows), Unresolved(rows, gates).value.turn;
    WorkTurn(rows, gates);
    ViewPushed(rows, row);
    LastTurnPushed(view, row);
    AnswerPushed(view, turn, row);
    TurnPushed(view, turn, row);
    UnresolvedByTurn(rows + [row], gates, turn);
  }

  lemma WorkTurn(rows: seq<Row>, gates: seq<string>)
    requires Unresolved(rows, gates).Some?
    ensures LastTurn(View(rows)) == Some(Unresolved(rows, gates).value.turn)
  {
    hide View, LastTurn, AnswerRow, Pending, Keys, ApprovalsOf, ScopeOf, Collapse;
  }

  lemma ViewPushed(rows: seq<Row>, row: Row)
    requires row.ToolResult?
    ensures View(rows + [row]) == Push(View(rows), row)
  {
    hide View, Push;
    ViewEnd(rows, row);
  }

  lemma TurnPushed(view: seq<Row>, turn: nat, row: Row)
    requires turn < |view| && view[turn].Assistant? && row.ToolResult?
    ensures Push(view, row)[turn] == view[turn]
  {
    hide Fold;
  }

  lemma UnresolvedByTurn(rows: seq<Row>, gates: seq<string>, turn: nat)
    requires LastTurn(View(rows)) == Some(turn)
    ensures var view := View(rows);
            Unresolved(rows, gates).None? <==>
              Pending(view[turn].calls, Keys(AnswerRow(view, turn).results), ApprovalsOf(view[turn].requests),
                      gates) == []
  {
    hide View, LastTurn, AnswerRow, Pending, Keys, ApprovalsOf, ScopeOf, Collapse;
  }

  lemma NothingLeft(calls: seq<Call>, pending: seq<Call>, settled: seq<Keyed<Output>>, was: set<string>,
                    now: set<string>, approvals: seq<Keyed<string>>, gates: seq<string>)
    requires pending == Pending(calls, was, approvals, gates) && Answers(pending, settled)
    requires was + Keys(settled) <= now
    ensures Pending(calls, now, approvals, gates) == []
  {
    var left := Pending(calls, now, approvals, gates);
    if left != [] {
      var call := left[0];
      assert call in left;
      assert call in pending;
      AnsweredKeys(pending, settled, call);
      assert false;
    }
  }

  /** A thread whose first turn was answered for its one gated call before the conversation went on;
      its other call is gated only by the present mode. */
  function AnsweredThenGated(): seq<Row> {
    [Assistant("", [Call("1", "a", "{}"), Call("2", "b", "{}")], [Request("apr", "1")], None),
     ToolResult([Keyed("1", Output("a", "{}", "done"))], []), User("go on")]
  }

  lemma PendingThen()
    ensures var rows := AnsweredThenGated();
            var approvals := ApprovalsOf(rows[0].requests);
            Pending(rows[0].calls, Keys(rows[1].results), approvals, ["b"]) == [Call("2", "b", "{}")]
  {
    var turn, answer := AnsweredThenGated()[0], AnsweredThenGated()[1];
    assert Keys(ApprovalsOf(turn.requests)) == {"1"} by {
      assert Asks(turn.requests) == [Keyed("1", "apr")];
    }
    assert Keys(answer.results) == {"1"} by {
      assert answer.results[1..] == [];
    }
    var b := Call("2", "b", "{}");
    assert turn.calls[1..] == [b] && [b][1..] == [];
    assert Pending([b], {"1"}, ApprovalsOf(turn.requests), ["b"]) == [b];
  }

  /** That turn stays unresolved: the answer recorded for it is not the one looked at. */
  lemma StuckTurn(settled: seq<Keyed<Output>>)
    requires Answers([Call("2", "b", "{}")], settled)
    ensures var rows := AnsweredThenGated();
            var work := Unresolved(rows, ["b"]);
            && work.Some?
            && work.value.calls == [Call("2", "b", "{}")]
            && Unresolved(rows + [Resolution(work.value, settled)], ["b"]).Some?
  {
    var rows := AnsweredThenGated();
    StuckView();
    PendingThen();
    hide View, Pending, LastTurn, Keys, Answer, ApprovalsOf, Answers, Resolution, ScopeOf, Collapse;
    assert Unresolved(rows, ["b"]).Some?;
    ResolutionSettles(rows, ["b"], settled);
  }

  lemma StuckView()
    ensures var rows := AnsweredThenGated();
            View(rows) == rows && LastTurn(rows) == Some(0) && Answer(rows, 1) == Some(1)
  {
    var rows := AnsweredThenGated();
    ShownIsItsOwnView(rows);
    AnswerIs(rows, 1, 1);
    assert Calls(rows[0]) && !Calls(rows[1]) && !Calls(rows[2]);
    hide View, LastTurn, Answer;
  }
}

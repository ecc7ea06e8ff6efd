/** What a provider may rely on when a conversation is replayed: every call is answered, once, right
    behind the turn that made it. */
module Replay {
  import opened Dicts
  import opened ThreadRows
  import opened ThreadLaws
  import opened ToolScope
  import opened Approvals
  import opened ApprovalRace
  import opened Wrappers

  /** The row behind the turn answers exactly its calls, each once. */
  predicate Complete(view: seq<Row>, i: nat)
    requires i < |view| && Calls(view[i])
  {
    && i + 1 < |view|
    && view[i + 1].ToolResult?
    && Distinct(view[i + 1].results)
    && Keys(view[i + 1].results) == Ids(view[i].calls)
  }

  /** The turn is the last thing said, and what it has no answer for waits for a person. */
  predicate Stopped(view: seq<Row>, i: nat)
    requires i < |view| && Calls(view[i])
  {
    var answer := AnswerRow(view, i);
    && |view| <= i + 2
    && (|view| == i + 2 ==> view[i + 1].ToolResult?)
    && Distinct(answer.results)
    && Keys(answer.results) <= Ids(view[i].calls)
    && Ids(view[i].calls) <= Keys(answer.results) + Keys(ApprovalsOf(view[i].requests))
  }

  predicate Sound(view: seq<Row>) {
    forall i | 0 <= i < |view| && Calls(view[i]) ::
      DistinctIds(view[i].calls) && (Complete(view, i) || Stopped(view, i))
  }

  predicate AllAnswered(view: seq<Row>) {
    forall i | 0 <= i < |view| && Calls(view[i]) :: DistinctIds(view[i].calls) && Complete(view, i)
  }

  // ----- one row more -----

  lemma CompleteStays(view: seq<Row>, i: nat, row: Row)
    requires i < |view| && Calls(view[i]) && Complete(view, i) && (row.ToolResult? ==> row.results == [])
    ensures Push(view, row)[i] == view[i] && Complete(Push(view, row), i)
  {
    if row.ToolResult? && i + 1 == |view| - 1 {
      FoldKeys(view[i + 1], row);
    }
  }

  /** A user's row, or an answer without calls. */
  lemma PlainRowKeeps(view: seq<Row>, row: Row)
    requires AllAnswered(view) && (row.User? || row.Assistant?) && !Calls(row)
    ensures AllAnswered(Push(view, row))
  {
    var pushed := Push(view, row);
    forall i | 0 <= i < |pushed| && Calls(pushed[i])
      ensures DistinctIds(pushed[i].calls) && Complete(pushed, i)
    {
      CompleteStays(view, i, row);
    }
  }

  /** A decision, recorded at any time. */
  lemma DecisionKeeps(view: seq<Row>, row: Row)
    requires Sound(view) && row.ToolResult? && row.results == []
    ensures Sound(Push(view, row))
  {
    var pushed := Push(view, row);
    forall i | 0 <= i < |pushed| && Calls(pushed[i])
      ensures DistinctIds(pushed[i].calls) && (Complete(pushed, i) || Stopped(pushed, i))
    {
      assert view[i] == pushed[i];
      if Complete(view, i) {
        CompleteStays(view, i, row);
      } else {
        AnswerPushed(view, i, row);
        if |view| == i + 2 {
          AnswerIs(view, i + 1, i + 1);
          FoldKeys(view[i + 1], row);
        }
      }
    }
  }

  /** A turn with calls, and the results recorded with it. */
  function Turned(view: seq<Row>, turn: Row, results: seq<Keyed<Output>>): (r: seq<Row>)
    requires Calls(turn)
  {
    if results == [] then Push(view, turn) else Push(Push(view, turn), ToolResult(results, []))
  }

  lemma TurnedIs(view: seq<Row>, turn: Row, results: seq<Keyed<Output>>)
    requires Calls(turn)
    ensures var r := Turned(view, turn, results);
            && r == view + [turn] + (if results == [] then [] else [ToolResult(results, [])])
            && AnswerRow(r, |view|).results == results
  {
    var r := Turned(view, turn, results);
    if results == [] {
      assert r == view + [turn] + [];
      assert Answer(r, |view| + 1).None?;
    } else {
      AnswerIs(r, |view| + 1, |view| + 1);
    }
  }

  /** A turn whose recorded results answer all its calls, or all but those that wait for a person. */
  lemma TurnKeeps(view: seq<Row>, turn: Row, results: seq<Keyed<Output>>)
    requires AllAnswered(view) && Calls(turn) && DistinctIds(turn.calls) && Distinct(results)
    requires Keys(results) <= Ids(turn.calls)
    requires Ids(turn.calls) <= Keys(results) + Keys(ApprovalsOf(turn.requests))
    ensures Sound(Turned(view, turn, results))
    ensures Keys(results) == Ids(turn.calls) ==> AllAnswered(Turned(view, turn, results))
  {
    var r := Turned(view, turn, results);
    TurnedIs(view, turn, results);
    forall i | 0 <= i < |r| && Calls(r[i])
      ensures DistinctIds(r[i].calls)
      ensures i < |view| ==> Complete(r, i)
      ensures i == |view| ==> Stopped(r, i) && (Keys(results) == Ids(turn.calls) ==> Complete(r, i))
    {
      if i < |view| {
        assert Complete(view, i);
      } else if Keys(results) == Ids(turn.calls) {
        assert turn.calls[0] in turn.calls;
      }
    }
  }

  // ----- resolving -----

  lemma {:induction false} DistinctByIndex<V>(s: seq<Keyed<V>>)
    requires forall i, j | 0 <= i < j < |s| :: s[i].key != s[j].key
    ensures Distinct(s)
  {
    if s != [] {
      DistinctByIndex(s[1..]);
      if s[0].key in Keys(s[1..]) {
        var i := KeyAt(s[1..], s[0].key);
        assert false;
      }
    }
  }

  lemma AnswersAreDistinct(calls: seq<Call>, settled: seq<Keyed<Output>>)
    requires Answers(calls, settled) && DistinctIds(calls)
    ensures Distinct(settled) && Keys(settled) == Ids(calls)
  {
    DistinctByIndex(settled);
    forall call | call in calls
      ensures call.id in Keys(settled)
    {
      AnsweredKeys(calls, settled, call);
    }
    forall key | key in Keys(settled)
      ensures key in Ids(calls)
    {
      var i := KeyAt(settled, key);
      assert calls[i] in calls;
    }
  }

  lemma LastIsLast(view: seq<Row>, i: nat)
    requires i < |view| && Calls(view[i]) && |view| <= i + 2 && (|view| == i + 2 ==> view[i + 1].ToolResult?)
    ensures LastTurn(view) == Some(i)
  {
  }

  lemma AllOrWaiting(calls: seq<Call>, answered: set<string>, approvals: seq<Keyed<string>>, gates: seq<string>)
    requires Ids(calls) <= answered + Keys(approvals)
    ensures Pending(calls, answered, approvals, gates) == [] <==> Ids(calls) <= answered
  {
    var pending := Pending(calls, answered, approvals, gates);
    PendingIds(calls, answered, approvals, gates);
    if pending == [] {
      assert Ids(pending) == {};
    } else {
      assert pending[0] in pending;
    }
  }

  /** A turn that is answered leaves nothing pending; one that stopped leaves something until it is. */
  lemma PendingTells(view: seq<Row>, i: nat, gates: seq<string>)
    requires i < |view| && Calls(view[i]) && (Complete(view, i) || Stopped(view, i))
    ensures var answer := AnswerRow(view, i);
            (Pending(view[i].calls, Keys(answer.results), ApprovalsOf(view[i].requests), gates) == []) <==>
            Complete(view, i)
  {
    var answer, approvals := AnswerRow(view, i), ApprovalsOf(view[i].requests);
    if |view| > i + 1 && view[i + 1].ToolResult? {
      AnswerIs(view, i + 1, i + 1);
    } else {
      assert Answer(view, i + 1).None?;
      assert view[i].calls[0].id in Ids(view[i].calls);
    }
    AllOrWaiting(view[i].calls, Keys(answer.results), approvals, gates);
  }

  /** When nothing is unresolved, every call is answered. */
  lemma NothingUnresolved(rows: seq<Row>, gates: seq<string>)
    requires Sound(View(rows)) && Unresolved(rows, gates).None?
    ensures AllAnswered(View(rows))
  {
    var view := View(rows);
    forall i | 0 <= i < |view| && Calls(view[i])
      ensures Complete(view, i)
    {
      PendingTells(view, i, gates);
      if !Complete(view, i) {
        LastIsLast(view, i);
        assert false;
      }
    }
  }

  /** The unresolved turn is the one that stopped, and it stands last. */
  lemma StoppedIsLast(rows: seq<Row>, gates: seq<string>)
    requires Sound(View(rows)) && Unresolved(rows, gates).Some?
    ensures var view, t := View(rows), Unresolved(rows, gates).value.turn;
            t < |view| && Calls(view[t]) && Stopped(view, t) && forall i | 0 <= i < |view| && Calls(view[i]) :: i <= t
  {
    var view, t := View(rows), Unresolved(rows, gates).value.turn;
    PendingTells(view, t, gates);
    hide Stopped, Complete, Pending, View;
  }

  lemma AnswerCompletes(view: seq<Row>, t: nat, row: Row)
    requires t < |view| && Calls(view[t]) && Stopped(view, t) && row.ToolResult?
    requires Keys(AnswerRow(view, t).results) + Keys(row.results) == Ids(view[t].calls)
    requires |view| == t + 1 ==> Distinct(row.results)
    ensures Push(view, row)[t] == view[t] && Complete(Push(view, row), t)
  {
    if |view| == t + 2 {
      AnswerFolds(view, t, row);
    } else {
      AnswerAppends(view, t, row);
    }
  }

  lemma AnswerFolds(view: seq<Row>, t: nat, row: Row)
    requires |view| == t + 2 && Calls(view[t]) && view[t + 1].ToolResult? && row.ToolResult?
    requires Keys(AnswerRow(view, t).results) + Keys(row.results) == Ids(view[t].calls)
    ensures Push(view, row)[t] == view[t] && Complete(Push(view, row), t)
  {
    AnswerIs(view, t + 1, t + 1);
    var folded := Fold(view[t + 1], row);
    FoldKeys(view[t + 1], row);
    assert Distinct(folded.results);
    var pushed := Push(view, row);
    assert pushed == view[..t + 1] + [folded];
    assert pushed[t + 1] == folded && pushed[t] == view[t];
    hide Keys, Distinct, Ids, Fold, AnswerRow, Push;
  }

  lemma AnswerAppends(view: seq<Row>, t: nat, row: Row)
    requires |view| == t + 1 && Calls(view[t]) && row.ToolResult? && Distinct(row.results)
    requires Keys(AnswerRow(view, t).results) + Keys(row.results) == Ids(view[t].calls)
    ensures Push(view, row)[t] == view[t] && Complete(Push(view, row), t)
  {
    assert Answer(view, t + 1).None?;
    assert Keys(AnswerRow(view, t).results) == {};
    assert Push(view, row) == view + [row];
    hide Keys, Distinct, Ids, AnswerRow, Push;
  }

  lemma KeysTogether(calls: seq<Call>, results: seq<Keyed<Output>>, approvals: seq<Keyed<string>>, gates: seq<string>,
                     settled: seq<Keyed<Output>>)
    requires DistinctIds(calls) && Answers(Pending(calls, Keys(results), approvals, gates), settled)
    requires Keys(results) <= Ids(calls) && Ids(calls) <= Keys(results) + Keys(approvals)
    ensures Keys(results) + Keys(Collapse(results) + settled) == Ids(calls)
    ensures Distinct(settled)
  {
    var pending := Pending(calls, Keys(results), approvals, gates);
    PendingIsDistinct(calls, Keys(results), approvals, gates);
    PendingIds(calls, Keys(results), approvals, gates);
    AnswersAreDistinct(pending, settled);
    KeysConcat(Collapse(results), settled);
  }

  /** What a resolution of the stopped turn records. */
  lemma ResolutionKeys(rows: seq<Row>, gates: seq<string>, settled: seq<Keyed<Output>>)
    requires Sound(View(rows)) && Unresolved(rows, gates).Some?
    requires Answers(Unresolved(rows, gates).value.calls, settled)
    ensures var view, work := View(rows), Unresolved(rows, gates).value;
            var row, answer := Resolution(work, settled), AnswerRow(view, work.turn);
            && work.turn < |view|
            && Calls(view[work.turn])
            && Keys(answer.results) + Keys(row.results) == Ids(view[work.turn].calls)
            && (|view| == work.turn + 1 ==> Distinct(row.results))
  {
    var view, work := View(rows), Unresolved(rows, gates).value;
    var t := work.turn;
    StoppedIsLast(rows, gates);
    var turn, answer := view[t], AnswerRow(view, t);
    assert Stopped(view, t) && DistinctIds(turn.calls);
    KeysTogether(turn.calls, answer.results, work.approvals, gates, settled);
    if |view| == t + 1 {
      assert Answer(view, t + 1).None?;
      assert work.results == [];
      assert [] + settled == settled;
    }
    hide Sound, Stopped, Pending, View, Ids, DistinctIds, ApprovalsOf, Keys, Distinct, ScopeOf;
  }

  /** Resolution answers whatever was left, so nothing is unresolved for any mode. */
  lemma ResolutionAnswers(rows: seq<Row>, gates: seq<string>, settled: seq<Keyed<Output>>)
    requires Sound(View(rows)) && Unresolved(rows, gates).Some?
    requires Answers(Unresolved(rows, gates).value.calls, settled)
    ensures AllAnswered(View(rows + [Resolution(Unresolved(rows, gates).value, settled)]))
  {
    var view, work := View(rows), Unresolved(rows, gates).value;
    var row, t := Resolution(work, settled), work.turn;
    var pushed := Push(view, row);
    ViewEnd(rows, row);
    StoppedIsLast(rows, gates);
    ResolutionKeys(rows, gates, settled);
    AnswerCompletes(view, t, row);
    assert DistinctIds(view[t].calls);
    hide Unresolved, View, Resolution, AnswerRow, Sound, Stopped, Complete, Push, Answers, Keys, Ids, DistinctIds;
    forall i | 0 <= i < |pushed| && Calls(pushed[i])
      ensures DistinctIds(pushed[i].calls) && Complete(pushed, i)
    {
      TurnsStay(view, row, i);
      if i != t {
        StaysComplete(view, t, i, row);
      }
    }
  }

  lemma TurnsStay(view: seq<Row>, row: Row, i: nat)
    requires row.ToolResult? && i < |Push(view, row)| && Calls(Push(view, row)[i])
    ensures i < |view| && view[i] == Push(view, row)[i]
  {
  }

  lemma StaysComplete(view: seq<Row>, t: nat, i: nat, row: Row)
    requires Sound(view) && t < |view| && Calls(view[t]) && row.ToolResult?
    requires i < |Push(view, row)| && Calls(Push(view, row)[i]) && i < t
    ensures DistinctIds(Push(view, row)[i].calls) && Complete(Push(view, row), i)
  {
    PushGrows(view, row);
    hide Push, Keys, Distinct, Ids, DistinctIds;
    assert view[i] == Push(view, row)[i];
    assert i + 1 < t && Complete(view, i);
  }

  /** With every call answered there is nothing to resolve, whatever the mode gates. */
  lemma AnsweredIsResolved(rows: seq<Row>, gates: seq<string>)
    requires AllAnswered(View(rows))
    ensures Unresolved(rows, gates).None?
  {
    var view := View(rows);
    var last := LastTurn(view);
    if last.Some? {
      PendingTells(view, last.value, gates);
      hide Pending, View;
    }
  }
}

/** A session that one worker drives, send after send. */
module Sessions {
  import opened Dicts
  import opened ThreadRows
  import opened ThreadLaws
  import opened ToolScope
  import opened Approvals
  import opened ApprovalRace
  import opened Replay
  import opened Wrappers
  import T = Thread

  /** What a send needs of its mode: the tools it may reach and those a person must allow first. */
  datatype Mode = Mode(tools: seq<string>, gates: seq<string>)

  datatype Ending = Finished | AwaitingApproval | Exhausted | Raised | StepFailed | CallRefused

  /** What the model answers to one step. */
  datatype Response = Response(text: string, calls: seq<Call>, finish: string) {
    predicate HasFailed() { finish == "error" || finish == "unknown" }
  }

  /** What the tools' handlers do when they are called, and the ids drawn for approvals. */
  datatype World = World(handle: Call -> Handled, draw: Call -> string)

  /** What a run meets each time round: its budget is spent, the model cannot be reached, or it answers. */
  datatype Event = OutOfBudget | Unanswered | Says(response: Response, world: World)

  /** One call of a tool's handler. */
  datatype Ran = Ran(turn: nat, callId: string, tool: string)

  /** A send that stopped for a person, and the offer stored with its turn. */
  datatype Link = Link(mode: Mode, offer: seq<string>)

  // ----- the calls of a response -----

  /** The calls that wait for a person, or those that do not. */
  function Chosen(calls: seq<Call>, gates: seq<string>, gated: bool): seq<Call> {
    if calls == [] then []
    else
      var rest, last := Chosen(calls[..|calls| - 1], gates, gated), calls[|calls| - 1];
      if NeedsApproval(gates, last.name) == gated then rest + [last] else rest
  }

  lemma {:induction false} ChosenHas(calls: seq<Call>, gates: seq<string>, gated: bool)
    ensures forall call :: call in Chosen(calls, gates, gated) <==>
                             call in calls && ("*" in gates || call.name in gates) == gated
    ensures DistinctIds(calls) ==> DistinctIds(Chosen(calls, gates, gated))
  {
    if calls != [] {
      var before, last := calls[..|calls| - 1], calls[|calls| - 1];
      assert calls == before + [last];
      ChosenHas(before, gates, gated);
    }
  }

  /** What a handler that ran the call leaves for the model. */
  function TextOf(handled: Handled): string
    requires !handled.Refused?
  {
    match handled
    case Gave(text) => text
    case Failed(message) => "The tool failed: " + message
  }

  /** What the handlers of these calls gave, as the model is told. */
  predicate Gives(calls: seq<Call>, handle: Call -> Handled, results: seq<Keyed<Output>>) {
    |results| == |calls|
    && forall i | 0 <= i < |calls| ::
         match handle(calls[i])
         case Gave(text) => results[i].value.text == text
         case Failed(message) => results[i].value.text == "The tool failed: " + message
         case Refused => false
  }

  lemma GivesMore(calls: seq<Call>, handle: Call -> Handled, results: seq<Keyed<Output>>, call: Call,
                  result: Keyed<Output>)
    requires Gives(calls, handle, results) && !handle(call).Refused? && result.value.text == TextOf(handle(call))
    ensures Gives(calls + [call], handle, results + [result])
  {
  }

  /** A person has to allow the tool: the gates name it, or name all. */
  predicate IsGated(gates: seq<string>, name: string) {
    exists i | 0 <= i < |gates| :: gates[i] == "*" || gates[i] == name
  }

  lemma GatedIs(gates: seq<string>, name: string)
    ensures NeedsApproval(gates, name) <==> IsGated(gates, name)
  {
  }

  /** The call is refused: its tool is not offered, or the handler refuses it. */
  predicate IsRefused(call: Call, offered: seq<string>, handle: Call -> Handled) {
    call.name !in offered || handle(call).Refused?
  }

  /** One of the calls that need nobody is refused. */
  predicate RefusesOne(calls: seq<Call>, gates: seq<string>, offered: seq<string>, handle: Call -> Handled) {
    exists call | call in calls :: !IsGated(gates, call.name) && IsRefused(call, offered, handle)
  }

  /** Only the calls up to the first refused one had their handlers called, that one too if its tool is
      offered. */
  predicate StopsAt(turn: nat, calls: seq<Call>, offered: seq<string>, handle: Call -> Handled, added: seq<Ran>) {
    exists n | 0 <= n < |calls| ::
      && IsRefused(calls[n], offered, handle)
      && (forall i | 0 <= i < n :: !IsRefused(calls[i], offered, handle))
      && added == RanAt(turn, if calls[n].name in offered then calls[..n + 1] else calls[..n])
  }

  lemma ChosenNone(calls: seq<Call>, gates: seq<string>, turn: nat)
    requires calls == []
    ensures Chosen(calls, gates, false) == [] && RanAt(turn, Chosen(calls, gates, false)) == []
  {
  }

  lemma RanAtEnd(turn: nat, calls: seq<Call>, call: Call)
    ensures RanAt(turn, calls + [call]) == RanAt(turn, calls) + [Ran(turn, call.id, call.name)]
  {
  }

  lemma ChosenEnd(calls: seq<Call>, gates: seq<string>, gated: bool, i: nat)
    requires i < |calls|
    ensures Chosen(calls[..i + 1], gates, gated) ==
            if NeedsApproval(gates, calls[i].name) == gated then Chosen(calls[..i], gates, gated) + [calls[i]]
            else Chosen(calls[..i], gates, gated)
  {
    assert calls[..i + 1][..i] == calls[..i];
  }

  lemma {:induction false} ChosenGrows(calls: seq<Call>, gates: seq<string>, i: nat, j: nat)
    requires i <= j <= |calls|
    ensures Chosen(calls[..i], gates, false) <= Chosen(calls[..j], gates, false)
    decreases j
  {
    if i < j {
      ChosenGrows(calls, gates, i, j - 1);
      ChosenEnd(calls, gates, false, j - 1);
      hide Chosen, NeedsApproval;
    }
  }

  /** One request for each of the calls, under the id drawn for it. */
  predicate Requested(calls: seq<Call>, draw: Call -> string, requests: seq<Request>) {
    |requests| == |calls| && forall i | 0 <= i < |calls| :: requests[i] == Request(draw(calls[i]), calls[i].id)
  }

  predicate AsksEach(calls: seq<Call>, requests: seq<Request>) {
    |requests| == |calls| && forall i | 0 <= i < |calls| :: requests[i].callId == calls[i].id
  }

  lemma RequestedKeys(calls: seq<Call>, requests: seq<Request>)
    requires AsksEach(calls, requests)
    ensures Ids(calls) <= Keys(ApprovalsOf(requests))
  {
    forall call | call in calls
      ensures call.id in Keys(Asks(requests))
    {
      var i :| 0 <= i < |calls| && calls[i] == call;
      KeyOf(Asks(requests), i);
    }
  }

  // ----- handlers that ran -----

  function RanBy(work: Work, bounded: seq<string>, k: nat): seq<Ran>
    requires k <= |work.calls|
  {
    if k == 0 then []
    else
      var call := work.calls[k - 1];
      RanBy(work, bounded, k - 1)
      + if Runs(work, bounded, call) then [Ran(work.turn, call.id, call.name)] else []
  }

  function RanAt(turn: nat, calls: seq<Call>): (r: seq<Ran>)
    ensures |r| == |calls|
  {
    seq(|calls|, i requires 0 <= i < |calls| => Ran(turn, calls[i].id, calls[i].name))
  }

  /** From there on, only handlers of offered tools ran that no person has to allow. */
  predicate RanWithin(ran: seq<Ran>, from: nat, offered: seq<string>, gates: seq<string>) {
    forall k | from <= k < |ran| :: ran[k].tool in offered && !IsGated(gates, ran[k].tool)
  }

  lemma RanWithinJoins(was: seq<Ran>, ran: seq<Ran>, from: nat, offered: seq<string>, gates: seq<string>)
    requires from <= |was| && was <= ran
    requires RanWithin(was, from, offered, gates) && RanWithin(ran, |was|, offered, gates)
    ensures RanWithin(ran, from, offered, gates)
  {
    hide IsGated;
  }

  predicate RanOnce(ran: seq<Ran>) {
    forall i, j | 0 <= i < j < |ran| :: ran[i].turn == ran[j].turn ==> ran[i].callId != ran[j].callId
  }

  /** Every call whose handler ran is answered in the thread. */
  predicate Logged(rows: seq<Row>, ran: seq<Ran>) {
    forall e | e in ran ::
      e.turn < |View(rows)| && Calls(View(rows)[e.turn]) && e.callId in Answered(rows, e.turn)
  }

  // ----- the offer a stopped thread holds -----

  /** The offer stored with the turn the thread stopped at, if it stopped. */
  function StopOffer(rows: seq<Row>): Option<seq<string>> {
    if rows == [] then None
    else
      match rows[|rows| - 1]
      case ToolResult(_, _) => StopOffer(rows[..|rows| - 1])
      case Assistant(_, _, requests, toolNames) => if requests == [] then None else toolNames
      case _ => None
  }

  lemma {:induction false} StopOfferIsScope(rows: seq<Row>, tail: seq<Row>)
    requires StopOffer(rows).Some? && AllValid(StopOffer(rows).value) && OnlyResults(tail)
    ensures ScopeOf(rows + tail) == Some(Scope(Once(StopOffer(rows).value), false))
    decreases |rows|
  {
    var before, last := rows[..|rows| - 1], rows[|rows| - 1];
    assert rows == before + [last];
    hide ScopeOf, AllValid, Once;
    if last.ToolResult? {
      StopOfferIsScope(before, [last] + tail);
      Associates(before, [last], tail);
    } else {
      StoppedTurnKeepsItsOffer(before, last, tail);
    }
  }

  /** Each stop of a chain stores what the one before stored, and its own mode covers, or less. */
  predicate Narrowing(chain: seq<Link>) {
    forall k, name | 0 < k < |chain| && name in chain[k].offer ::
      name in chain[k - 1].offer && Covers(chain[k].mode.tools, name)
  }

  /** Along a chain of stops and resumes nothing is ever offered again once it was left out. */
  lemma {:induction false} NeverWidens(chain: seq<Link>, i: nat, j: nat, name: string)
    requires Narrowing(chain) && i < j < |chain| && name in chain[j].offer
    ensures name in chain[i].offer
    ensures forall k | i < k <= j :: "*" in chain[k].mode.tools || name in chain[k].mode.tools
    decreases j - i
  {
    if i + 1 < j {
      NeverWidens(chain, i, j - 1, name);
    }
  }

  class Session {
    const thread: T.Thread<Row>

    /** The handlers that ran, in order. */
    ghost var ran: seq<Ran>

    /** The latest stops, each reached by resuming the one before. */
    ghost var chain: seq<Link>

    /** A call that needed nobody was refused, and its turn left without results. */
    ghost var refused: bool

    constructor ()
      ensures Valid() && !refused && fresh(thread) && Rows() == [] && ran == []
    {
      thread := new T.Thread<Row>();
      ran, chain, refused := [], [], false;
    }

    function Rows(): seq<Row>
      reads thread
    {
      T.Messages(thread.entries)
    }

    ghost predicate Valid()
      reads this, thread
    {
      && T.Numbered(thread.entries)
      && Narrowing(chain)
      && (!refused ==> Kept() && ChainHolds())
    }

    ghost predicate Kept()
      reads this, thread
    {
      Sound(View(Rows())) && Logged(Rows(), ran) && RanOnce(ran)
    }

    ghost predicate ChainHolds()
      reads this, thread
    {
      var offer := StopOffer(Rows());
      offer.Some? ==> chain != [] && chain[|chain| - 1].offer == offer.value
    }

    method Append(row: Row, runId: Option<string>)
      requires T.Numbered(thread.entries)
      modifies thread
      ensures T.Numbered(thread.entries) && Rows() == old(Rows()) + [row]
    {
      var appended := thread.Record([row], runId);
      assert T.Messages(thread.entries) == old(T.Messages(thread.entries)) + T.Messages(appended);
    }

    /** A person's answer, recorded at any time between sends. */
    method RecordApproval(approvalId: string, approved: bool, reason: Option<string>, runId: Option<string>)
      requires Valid()
      modifies thread
      ensures Valid()
      ensures Rows() == old(Rows()) + [ToolResult([], [Keyed(approvalId, Verdict(approved, reason))])]
    {
      var row := ToolResult([], [Keyed(approvalId, Verdict(approved, reason))]);
      ghost var rows := Rows();
      Append(row, runId);
      ViewEnd(rows, row);
      if !refused {
        DecisionKeeps(View(rows), row);
        LoggedStays(rows, row, ran);
        assert Rows()[..|rows|] == rows;
      }
    }

    /** Answers each of the calls, running the handlers of those that were approved. */
    method Settle(work: Work, bounded: seq<string>, handle: Call -> Handled) returns (settled: seq<Keyed<Output>>)
      modifies `ran
      ensures Answers(work.calls, settled) && AnsweredBy(work, bounded, handle, settled)
      ensures ran == old(ran) + RanBy(work, bounded, |work.calls|)
    {
      hide Runs, AnswerTo;
      settled := [];
      for i := 0 to |work.calls|
        invariant |settled| == i && forall k | 0 <= k < i :: AnswersCall(work.calls[k], settled[k])
        invariant forall k | 0 <= k < i :: settled[k] == AnswerTo(work, bounded, work.calls[k], handle(work.calls[k]))
        invariant ran == old(ran) + RanBy(work, bounded, i)
      {
        var call := work.calls[i];
        var handled := Refused;
        if Runs(work, bounded, call) {
          ran := ran + [Ran(work.turn, call.id, call.name)];
          handled := handle(call);
        }
        OnlyRunsShow(work, bounded, call, handled, handle(call));
        settled := settled + [AnswerTo(work, bounded, call, handled)];
      }
    }

    /** Acts on the decisions recorded for the turn that stopped, if one did. */
    method Resolve(mode: Mode, offered: seq<string>, handle: Call -> Handled, runId: Option<string>)
      returns (bounded: seq<string>)
      requires T.Numbered(thread.entries) && !refused && Kept()
      modifies thread, `ran
      ensures T.Numbered(thread.entries) && Kept() && AllAnswered(View(Rows()))
      ensures forall gates :: Unresolved(Rows(), gates).None?
      ensures var work := old(Unresolved(Rows(), mode.gates));
              if work.None? then Rows() == old(Rows()) && bounded == offered && ran == old(ran)
              else
                && bounded == Bounded(offered, work.value.scope)
                && ran == old(ran) + RanBy(work.value, bounded, |work.value.calls|)
                && Resolved(old(Rows()), Rows(), work.value, bounded, handle)
      ensures StopOffer(Rows()) == old(StopOffer(Rows()))
    {
      hide View, Sound, AllAnswered, Unresolved, Logged, RanOnce, StopOffer, Bounded, Resolution, AnswerTo, T.Messages;
      ghost var rows := Rows();
      var work := Unresolved(Rows(), mode.gates);
      if work.None? {
        NothingUnresolved(rows, mode.gates);
        bounded := offered;
      } else {
        bounded := Bounded(offered, work.value.scope);
        var settled := Settle(work.value, bounded, handle);
        ResolutionIs(work.value, settled);
        Append(Resolution(work.value, settled), runId);
        ResolutionKeeps(rows, mode.gates, settled, bounded, old(ran));
      }
      AllResolved(Rows());
    }

    /** Runs the calls that need nobody, in their order, until one is refused. */
    method RunUngated(calls: seq<Call>, gates: seq<string>, offered: seq<string>, handle: Call -> Handled,
                      ghost turn: nat)
      returns (results: seq<Keyed<Output>>, ok: bool)
      modifies `ran
      ensures !ok <==> RefusesOne(calls, gates, offered, handle)
      ensures var now := Chosen(calls, gates, false);
              && old(ran) <= ran
              && if ok then
                   Answers(now, results) && Gives(now, handle, results) && ran == old(ran) + RanAt(turn, now)
                 else StopsAt(turn, now, offered, handle, ran[|old(ran)|..])
      ensures RanWithin(ran, |old(ran)|, offered, gates)
    {
      hide DistinctIds, NeedsApproval, RanAt, Chosen, IsGated, StopsAt;
      results, ok := [], true;
      ChosenNone(calls[..0], gates, turn);
      for i := 0 to |calls|
        invariant var now := Chosen(calls[..i], gates, false);
                  && Answers(now, results) && Gives(now, handle, results)
                  && ran == old(ran) + RanAt(turn, now)
                  && forall call | call in now :: !IsRefused(call, offered, handle)
        invariant RanWithin(ran, |old(ran)|, offered, gates)
        invariant forall call | call in calls[..i] :: IsGated(gates, call.name) || !IsRefused(call, offered, handle)
      {
        var call := calls[i];
        ghost var now := Chosen(calls[..i], gates, false);
        ChosenEnd(calls, gates, false, i);
        GatedIs(gates, call.name);
        if !NeedsApproval(gates, call.name) {
          RanAtEnd(turn, now, call);
          if call.name !in offered {
            StopsHere(turn, calls, gates, offered, handle, i);
            assert ran[|old(ran)|..] == RanAt(turn, now);
            return results, false;
          }
          ran := ran + [Ran(turn, call.id, call.name)];
          var handled := handle(call);
          if handled.Refused? {
            StopsHere(turn, calls, gates, offered, handle, i);
            assert ran[|old(ran)|..] == RanAt(turn, now) + [Ran(turn, call.id, call.name)];
            return results, false;
          }
          var result := Keyed(call.id, Output(call.name, call.arguments, TextOf(handled)));
          GivesMore(now, handle, results, call, result);
          results := results + [result];
        }
      }
      assert calls[..|calls|] == calls;
    }

    /** Asks the model once, records what it said, and runs what needs nobody. */
    method Step(mode: Mode, offered: seq<string>, response: Response, world: World, runId: Option<string>)
      returns (ending: Option<Ending>)
      requires T.Numbered(thread.entries) && !refused && Kept() && AllAnswered(View(Rows()))
      requires DistinctIds(response.calls)
      modifies thread, `ran, `refused
      ensures T.Numbered(thread.entries)
      ensures !refused ==> Kept()
      ensures ending.None? ==> AllAnswered(View(Rows()))
      ensures !refused ==> StopOffer(Rows()) == if ending == Some(AwaitingApproval) then Some(offered) else None
      ensures refused <==> ending == Some(CallRefused)
      ensures ending == EndingOf(response, mode.gates, offered, world)
      ensures Said(old(Rows()), Rows(), mode.gates, offered, response, world)
      ensures old(ran) <= ran
      ensures RanSo(|View(old(Rows()))|, response, mode.gates, offered, world, ran[|old(ran)|..])
      ensures RanWithin(ran, |old(ran)|, offered, mode.gates)
    {
      hide View, Sound, AllAnswered, Logged, RanOnce, Answers, T.Messages;
      ghost var rows := Rows();
      var requests := [];
      if !response.HasFailed() {
        requests := RequestAll(response.calls, mode.gates, world.draw);
      }
      var row := TurnOf(response, requests, offered);
      Append(row, runId);
      if response.calls == [] {
        PlainTurnLands(rows, row, ran);
        PlainIsSaid(rows, mode.gates, offered, response, world, requests);
        return Some(if response.HasFailed() then StepFailed else Finished);
      }
      if response.HasFailed() {
        var results := NotRun(response.calls, response.finish);
        Append(ToolResult(results, []), runId);
        FailedTurnLands(rows, row, results, ran);
        FailureIsSaid(rows, mode.gates, offered, response, world, requests, results);
        return Some(StepFailed);
      }
      var results, ok := RunUngated(response.calls, mode.gates, offered, world.handle, |View(rows)|);
      if !ok {
        refused := true;
        RefusalIsSaid(rows, mode.gates, offered, response, world, requests);
        return Some(CallRefused);
      }
      if results != [] {
        Append(ToolResult(results, []), runId);
      }
      TurnLands(rows, row, mode.gates, results, old(ran));
      TurnIsSaid(rows, mode.gates, offered, response, world, requests, results);
      ending := if requests == [] then None else Some(AwaitingApproval);
    }

    /** Asks until the model is done, a person is needed, or the run may not go on, `asked` times in all. */
    method Loop(mode: Mode, offered: seq<string>, events: seq<Event>, runId: Option<string>)
      returns (ending: Ending, ghost asked: nat)
      requires T.Numbered(thread.entries) && !refused && Kept() && AllAnswered(View(Rows()))
      requires forall i | 0 <= i < |events| && events[i].Says? :: DistinctIds(events[i].response.calls)
      modifies thread, `ran, `refused
      ensures T.Numbered(thread.entries)
      ensures refused <==> ending == CallRefused
      ensures !refused ==> Kept()
      ensures !refused && ending != AwaitingApproval ==> StopOffer(Rows()) in {None, old(StopOffer(Rows()))}
      ensures ending == AwaitingApproval ==> StopOffer(Rows()) == Some(offered)
      ensures Went(old(Rows()), old(ran), Rows(), ran, mode.gates, offered, events, asked)
      ensures EndsSo(ending, mode.gates, offered, events, asked)
      ensures old(ran) <= ran
      ensures RanWithin(ran, |old(ran)|, offered, mode.gates)
    {
      hide View, Sound, AllAnswered, Logged, RanOnce, StopOffer, T.Messages, Said, RanSo, EndingOf, IsGated, EndsSo;
      assert Went(Rows(), ran, Rows(), ran, mode.gates, offered, events, 0);
      assert GoesOn(mode.gates, offered, events, 0) && RanWithin(ran, |ran|, offered, mode.gates);
      hide Went, GoesOn, RanWithin;
      for i := 0 to |events|
        invariant T.Numbered(thread.entries) && !refused && Kept() && AllAnswered(View(Rows()))
        invariant StopOffer(Rows()) in {None, old(StopOffer(Rows()))}
        invariant Went(old(Rows()), old(ran), Rows(), ran, mode.gates, offered, events, i)
        invariant GoesOn(mode.gates, offered, events, i)
        invariant old(ran) <= ran
        invariant RanWithin(ran, |old(ran)|, offered, mode.gates)
      {
        if !events[i].Says? {
          EndsBeforeAsking(mode.gates, offered, events, i);
          return if events[i].Unanswered? then Raised else Exhausted, i;
        }
        ghost var rows, was := Rows(), ran;
        var ended := Step(mode, offered, events[i].response, events[i].world, runId);
        WentFurther(old(Rows()), old(ran), rows, was, Rows(), ran, mode.gates, offered, events, i);
        RanWithinJoins(was, ran, |old(ran)|, offered, mode.gates);
        EndsByStep(mode.gates, offered, events, i);
        if ended.Some? {
          return ended.value, i + 1;
        }
      }
      EndsBeforeAsking(mode.gates, offered, events, |events|);
      ending, asked := Exhausted, |events|;
    }

    /** One send: decisions first, then the prompt, then the model.  `resumed` is the thread the model is
        asked on, and the handlers up to `acted` are those of the decisions. */
    method Send(mode: Mode, offered: seq<string>, prompt: string, handle: Call -> Handled, events: seq<Event>,
                runId: Option<string>)
      returns (ending: Ending, used: seq<string>, ghost resumed: seq<Row>, ghost acted: nat, ghost asked: nat)
      requires Valid() && !refused
      requires forall i | 0 <= i < |events| && events[i].Says? :: DistinctIds(events[i].response.calls)
      modifies this, thread
      ensures Valid() && (refused <==> ending == CallRefused)
      ensures var start := AtStart(offered, mode.tools, old(ScopeOf(Rows())));
              Continued(old(Rows()), old(ran), mode, start, prompt, handle, used, resumed, acted, ran)
      ensures acted <= |ran| && Went(resumed, ran[..acted], Rows(), ran, mode.gates, used, events, asked)
      ensures EndsSo(ending, mode.gates, used, events, asked)
      ensures RanWithin(ran, acted, used, mode.gates)
      ensures var scope := old(ScopeOf(Rows()));
              forall name | name in used ::
                && name in offered
                && (scope.Some? ==> name in scope.value.names && ("*" in mode.tools || name in mode.tools))
      ensures ending == AwaitingApproval ==> StopOffer(Rows()) == Some(used)
      ensures old(ran) <= ran && forall k | |old(ran)| <= k < |ran| :: ran[k].tool in used
      ensures chain == if ending != AwaitingApproval then old(chain)
                       else
                         var was := old(StopOffer(Rows()));
                         (if was.Some? && AllValid(was.value) then old(chain) else []) + [Link(mode, used)]
    {
      hide View, Sound, AllAnswered, Logged, RanOnce, AllValid, StopOffer, ScopeOf, Narrowing, AtStart, T.Messages;
      hide Continued, Went, EndsSo, IsGated;
      ghost var was := StopOffer(Rows());
      ghost var rows := Rows();
      var scope := ApprovalToolScope(Rows());
      var start := AtStart(offered, mode.tools, scope);
      ending, used, resumed, acted, asked := Continue(mode, start, prompt, handle, events, runId);
      if ending == AwaitingApproval {
        ChainGrows(rows, chain, offered, Link(mode, used));
        chain := (if was.Some? && AllValid(was.value) then chain else []) + [Link(mode, used)];
      }
    }

    /** Resolves, records the prompt and loops, with the tools a run starts with. */
    method Continue(mode: Mode, start: seq<string>, prompt: string, handle: Call -> Handled, events: seq<Event>,
                    runId: Option<string>)
      returns (ending: Ending, used: seq<string>, ghost resumed: seq<Row>, ghost acted: nat, ghost asked: nat)
      requires T.Numbered(thread.entries) && !refused && Kept()
      requires forall i | 0 <= i < |events| && events[i].Says? :: DistinctIds(events[i].response.calls)
      modifies thread, `ran, `refused
      ensures T.Numbered(thread.entries)
      ensures refused <==> ending == CallRefused
      ensures !refused ==> Kept()
      ensures Continued(old(Rows()), old(ran), mode, start, prompt, handle, used, resumed, acted, ran)
      ensures acted <= |ran| && Went(resumed, ran[..acted], Rows(), ran, mode.gates, used, events, asked)
      ensures EndsSo(ending, mode.gates, used, events, asked)
      ensures RanWithin(ran, acted, used, mode.gates)
      ensures forall name | name in used :: name in start
      ensures !refused && ending != AwaitingApproval ==> StopOffer(Rows()) in {None, old(StopOffer(Rows()))}
      ensures ending == AwaitingApproval ==> StopOffer(Rows()) == Some(used)
      ensures old(ran) <= ran && forall k | |old(ran)| <= k < |ran| :: ran[k].tool in used
    {
      hide View, Sound, AllAnswered, Logged, RanOnce, StopOffer, T.Messages, Unresolved, Resolved;
      hide Went, EndsSo, IsGated;
      ghost var rows := Rows();
      used := Resolve(mode, start, handle, runId);
      ResolveRanIn(rows, mode.gates, start, used, old(ran), ran);
      ghost var base := Rows();
      if prompt != "" {
        var row := User(prompt);
        PlainTurn(Rows(), row, ran);
        Append(row, runId);
      }
      resumed, acted := Rows(), |ran|;
      ghost var acts := ran;
      ContinuedSo(rows, old(ran), mode, start, prompt, handle, used, base, resumed, ran);
      hide Continued;
      ending, asked := Loop(mode, used, events, runId);
      assert ran[..acted] == acts;
      ContinuedStays(rows, old(ran), mode, start, prompt, handle, used, resumed, acts, ran);
    }
  }

  // ----- what a step, a loop and a send come to -----

  /** How a step ends the run, or that it goes on. */
  ghost function EndingOf(response: Response, gates: seq<string>, offered: seq<string>, world: World): Option<Ending> {
    if response.finish in {"error", "unknown"} then Some(StepFailed)
    else if response.calls == [] then Some(Finished)
    else if RefusesOne(response.calls, gates, offered, world.handle) then Some(CallRefused)
    else if exists call | call in response.calls :: IsGated(gates, call.name) then Some(AwaitingApproval)
    else None
  }

  /** A failed step asks for nothing; any other, for exactly the calls that are gated, in their order and
      each under the id drawn for it. */
  predicate AsksFor(response: Response, gates: seq<string>, world: World, requests: seq<Request>) {
    if response.finish in {"error", "unknown"} then requests == []
    else
      && Requested(Chosen(response.calls, gates, true), world.draw, requests)
      && forall call | call in response.calls ::
           && (IsGated(gates, call.name) ==> Request(world.draw(call), call.id) in requests)
           && (!IsGated(gates, call.name) ==> forall r | r in requests :: r.callId != call.id)
  }

  /** What the model is told of the calls: that the step failed, or what the handlers of the calls that
      need nobody gave; nothing when one of them was refused. */
  ghost predicate TellsModel(response: Response, gates: seq<string>, offered: seq<string>, world: World,
                             results: seq<Keyed<Output>>)
  {
    if response.finish in {"error", "unknown"} then
      && Answers(response.calls, results)
      && forall r | r in results :: r.value.text == "Not run: model step failed (" + response.finish + ")."
    else if RefusesOne(response.calls, gates, offered, world.handle) then results == []
    else
      var now := Chosen(response.calls, gates, false);
      Answers(now, results) && Gives(now, world.handle, results)
  }

  /** A step records the response with its requests and, beside them, the offer; then what it tells the
      model. */
  ghost predicate Said(before: seq<Row>, after: seq<Row>, gates: seq<string>, offered: seq<string>, response: Response,
                       world: World)
  {
    exists requests, results ::
      && AsksFor(response, gates, world, requests)
      && TellsModel(response, gates, offered, world, results)
      && after == Spoken(before, response, offered, requests, results)
  }

  function Spoken(before: seq<Row>, response: Response, offered: seq<string>, requests: seq<Request>,
                  results: seq<Keyed<Output>>): seq<Row>
  {
    before
    + [Assistant(response.text, response.calls, requests, if requests == [] then None else Some(offered))]
    + if results == [] then [] else [ToolResult(results, [])]
  }

  /** Which handlers ran: those of the calls that need nobody, or the first of them up to a refusal. */
  predicate RanSo(turn: nat, response: Response, gates: seq<string>, offered: seq<string>, world: World,
                  added: seq<Ran>)
  {
    if response.finish in {"error", "unknown"} then added == []
    else if RefusesOne(response.calls, gates, offered, world.handle) then
      StopsAt(turn, Chosen(response.calls, gates, false), offered, world.handle, added)
    else added == RanAt(turn, Chosen(response.calls, gates, false))
  }

  /** The first `n` steps, from one thread and log of handlers to another. */
  ghost predicate Went(before: seq<Row>, ran: seq<Ran>, after: seq<Row>, ran': seq<Ran>, gates: seq<string>,
                       offered: seq<string>, events: seq<Event>, n: nat)
    decreases n
  {
    && n <= |events|
    && if n == 0 then after == before && ran' == ran
       else
         var e := events[n - 1];
         && e.Says?
         && exists rows, was ::
              && Went(before, ran, rows, was, gates, offered, events, n - 1)
              && Said(rows, after, gates, offered, e.response, e.world)
              && was <= ran'
              && RanSo(|View(rows)|, e.response, gates, offered, e.world, ran'[|was|..])
  }

  lemma {:induction false} WentFurther(before: seq<Row>, ran: seq<Ran>, rows: seq<Row>, was: seq<Ran>, after: seq<Row>,
                                       ran': seq<Ran>, gates: seq<string>, offered: seq<string>, events: seq<Event>,
                                       n: nat)
    requires Went(before, ran, rows, was, gates, offered, events, n)
    requires n < |events| && events[n].Says?
    requires Said(rows, after, gates, offered, events[n].response, events[n].world)
    requires was <= ran'
    requires RanSo(|View(rows)|, events[n].response, gates, offered, events[n].world, ran'[|was|..])
    ensures Went(before, ran, after, ran', gates, offered, events, n + 1)
  {
    hide Said, RanSo, View;
  }

  /** After each of the first `n` steps the run goes on. */
  ghost predicate GoesOn(gates: seq<string>, offered: seq<string>, events: seq<Event>, n: nat) {
    && n <= |events|
    && forall i | 0 <= i < n ::
         events[i].Says? && EndingOf(events[i].response, gates, offered, events[i].world).None?
  }

  /** A run goes on until a step ends it, its budget is spent or the model does not answer. */
  ghost predicate EndsSo(ending: Ending, gates: seq<string>, offered: seq<string>, events: seq<Event>, n: nat) {
    && n <= |events|
    && if GoesOn(gates, offered, events, n) then
         if n == |events| || events[n].OutOfBudget? then ending == Exhausted
         else events[n].Unanswered? && ending == Raised
       else
         && n > 0
         && GoesOn(gates, offered, events, n - 1)
         && events[n - 1].Says?
         && EndingOf(events[n - 1].response, gates, offered, events[n - 1].world) == Some(ending)
  }

  lemma EndsBeforeAsking(gates: seq<string>, offered: seq<string>, events: seq<Event>, n: nat)
    requires GoesOn(gates, offered, events, n)
    requires n < |events| ==> !events[n].Says?
    ensures EndsSo(if n < |events| && events[n].Unanswered? then Raised else Exhausted, gates, offered, events, n)
  {
    hide EndingOf;
  }

  lemma EndsByStep(gates: seq<string>, offered: seq<string>, events: seq<Event>, n: nat)
    requires GoesOn(gates, offered, events, n)
    requires n < |events| && events[n].Says?
    ensures var e := EndingOf(events[n].response, gates, offered, events[n].world);
            if e.None? then GoesOn(gates, offered, events, n + 1)
            else EndsSo(e.value, gates, offered, events, n + 1)
  {
    hide EndingOf;
    if EndingOf(events[n].response, gates, offered, events[n].world).Some? {
      assert !GoesOn(gates, offered, events, n + 1);
    }
  }

  /** What a send does before it asks the model: it answers the stopped turn, if there is one, and records
      the prompt, if there is one. */
  ghost predicate Continued(before: seq<Row>, ran: seq<Ran>, mode: Mode, start: seq<string>, prompt: string,
                            handle: Call -> Handled, used: seq<string>, resumed: seq<Row>, acted: nat,
                            ran': seq<Ran>)
  {
    var work := Unresolved(before, mode.gates);
    && used == (if work.None? then start else Bounded(start, work.value.scope))
    && acted <= |ran'|
    && ran'[..acted] == ran + (if work.None? then [] else RanBy(work.value, used, |work.value.calls|))
    && exists base ::
         && (if work.None? then base == before else Resolved(before, base, work.value, used, handle))
         && resumed == if prompt == "" then base else base + [User(prompt)]
  }

  lemma ContinuedSo(before: seq<Row>, ran: seq<Ran>, mode: Mode, start: seq<string>, prompt: string,
                    handle: Call -> Handled, used: seq<string>, base: seq<Row>, resumed: seq<Row>, ran': seq<Ran>)
    requires var work := Unresolved(before, mode.gates);
             && used == (if work.None? then start else Bounded(start, work.value.scope))
             && ran' == ran + (if work.None? then [] else RanBy(work.value, used, |work.value.calls|))
             && (if work.None? then base == before else Resolved(before, base, work.value, used, handle))
    requires resumed == if prompt == "" then base else base + [User(prompt)]
    ensures Continued(before, ran, mode, start, prompt, handle, used, resumed, |ran'|, ran')
  {
    assert ran'[..|ran'|] == ran';
    hide Unresolved, Resolved, Bounded, RanBy;
  }

  lemma ContinuedStays(before: seq<Row>, ran: seq<Ran>, mode: Mode, start: seq<string>, prompt: string,
                       handle: Call -> Handled, used: seq<string>, resumed: seq<Row>, acts: seq<Ran>, ran': seq<Ran>)
    requires Continued(before, ran, mode, start, prompt, handle, used, resumed, |acts|, acts) && acts <= ran'
    ensures Continued(before, ran, mode, start, prompt, handle, used, resumed, |acts|, ran')
  {
    assert ran'[..|acts|] == acts[..|acts|];
    hide Unresolved, Resolved, Bounded, RanBy;
  }

  /** A stop reached from a stop with a valid stored offer narrows it. */
  lemma ChainGrows(rows: seq<Row>, chain: seq<Link>, offered: seq<string>, link: Link)
    requires Narrowing(chain)
    requires forall name | name in link.offer :: name in AtStart(offered, link.mode.tools, ScopeOf(rows))
    requires var was := StopOffer(rows); was.Some? ==> chain != [] && chain[|chain| - 1].offer == was.value
    ensures var was := StopOffer(rows);
            Narrowing((if was.Some? && AllValid(was.value) then chain else []) + [link])
  {
    var was := StopOffer(rows);
    if was.Some? && AllValid(was.value) {
      StopOfferIsScope(rows, []);
      assert rows + [] == rows;
      hide ScopeOf, StopOffer, AllValid, AtStart, Narrowing, Once, Covers;
      forall name | name in link.offer
        ensures name in was.value && Covers(link.mode.tools, name)
      {
        assert name in AtStart(offered, link.mode.tools, ScopeOf(rows));
      }
      NarrowingEnd(chain, link);
    }
  }

  lemma NarrowingEnd(chain: seq<Link>, link: Link)
    requires Narrowing(chain) && chain != []
    requires forall name | name in link.offer ::
               name in chain[|chain| - 1].offer && Covers(link.mode.tools, name)
    ensures Narrowing(chain + [link])
  {
    hide Covers;
  }

  lemma ResolveRanIn(rows: seq<Row>, gates: seq<string>, start: seq<string>, used: seq<string>, before: seq<Ran>,
                     ran: seq<Ran>)
    requires var work := Unresolved(rows, gates);
             if work.None? then used == start && ran == before
             else used == Bounded(start, work.value.scope)
                  && ran == before + RanBy(work.value, used, |work.value.calls|)
    ensures forall name | name in used :: name in start
    ensures before <= ran && forall k | |before| <= k < |ran| :: ran[k].tool in used
  {
    var work := Unresolved(rows, gates);
    if work.Some? {
      RanByCalls(work.value, used, |work.value.calls|);
      var added := RanBy(work.value, used, |work.value.calls|);
      forall k | |before| <= k < |ran|
        ensures ran[k].tool in used
      {
        assert ran[k] == added[k - |before|];
        assert ran[k] in added;
      }
    }
  }

  lemma PlainTurn(rows: seq<Row>, row: Row, ran: seq<Ran>)
    requires row.User? && AllAnswered(View(rows)) && Logged(rows, ran)
    ensures AllAnswered(View(rows + [row])) && Sound(View(rows + [row])) && Logged(rows + [row], ran)
    ensures StopOffer(rows + [row]) == None
  {
    ViewEnd(rows, row);
    PlainRowKeeps(View(rows), row);
    LoggedStays(rows, row, ran);
  }

  lemma AsksSo(response: Response, gates: seq<string>, world: World, requests: seq<Request>)
    requires DistinctIds(response.calls)
    requires if response.HasFailed() then requests == []
             else Requested(Chosen(response.calls, gates, true), world.draw, requests)
    ensures AsksFor(response, gates, world, requests)
    ensures !response.HasFailed() ==>
              (requests == [] <==> forall call | call in response.calls :: !IsGated(gates, call.name))
  {
    var gated := Chosen(response.calls, gates, true);
    ChosenHas(response.calls, gates, true);
    hide Chosen;
    if !response.HasFailed() {
      forall call | call in response.calls
        ensures IsGated(gates, call.name) <==> call in gated
        ensures call in gated ==> Request(world.draw(call), call.id) in requests
        ensures call !in gated ==> forall r | r in requests :: r.callId != call.id
      {
        GatedIs(gates, call.name);
        OneRequest(response.calls, gated, world.draw, requests, call);
      }
      if requests != [] {
        assert gated[0] in gated;
      }
    }
    hide IsGated;
  }

  /** A call is among these exactly when one of the requests made for them names it. */
  lemma OneRequest(calls: seq<Call>, gated: seq<Call>, draw: Call -> string, requests: seq<Request>, call: Call)
    requires DistinctIds(calls) && Requested(gated, draw, requests) && call in calls
    requires forall c | c in gated :: c in calls
    ensures call in gated ==> Request(draw(call), call.id) in requests
    ensures call !in gated ==> forall r | r in requests :: r.callId != call.id
  {
    if call in gated {
      var i :| 0 <= i < |gated| && gated[i] == call;
      assert requests[i] in requests;
    }
    forall r | r in requests
      ensures r.callId == call.id ==> call in gated
    {
      var i :| 0 <= i < |requests| && requests[i] == r;
      assert gated[i] in calls;
    }
  }

  lemma SpokenIs(rows: seq<Row>, response: Response, offered: seq<string>, requests: seq<Request>,
                 results: seq<Keyed<Output>>)
    ensures Landed(rows, TurnOf(response, requests, offered), results) ==
            Spoken(rows, response, offered, requests, results)
  {
  }

  lemma PlainIsSaid(before: seq<Row>, gates: seq<string>, offered: seq<string>, response: Response, world: World,
                    requests: seq<Request>)
    requires response.calls == [] && requests == []
    ensures Said(before, before + [TurnOf(response, requests, offered)], gates, offered, response, world)
    ensures RanSo(|View(before)|, response, gates, offered, world, [])
    ensures EndingOf(response, gates, offered, world) == Some(if response.HasFailed() then StepFailed else Finished)
  {
    assert AsksFor(response, gates, world, requests);
    SpokenIs(before, response, offered, requests, []);
    assert TellsModel(response, gates, offered, world, []);
  }

  lemma FailureIsSaid(before: seq<Row>, gates: seq<string>, offered: seq<string>, response: Response, world: World,
                      requests: seq<Request>, results: seq<Keyed<Output>>)
    requires response.HasFailed() && requests == [] && response.calls != [] && Answers(response.calls, results)
    requires forall r | r in results :: r.value.text == "Not run: model step failed (" + response.finish + ")."
    ensures Said(before, before + [TurnOf(response, requests, offered)] + [ToolResult(results, [])], gates, offered,
                 response, world)
    ensures RanSo(|View(before)|, response, gates, offered, world, [])
    ensures EndingOf(response, gates, offered, world) == Some(StepFailed)
  {
    assert AsksFor(response, gates, world, requests);
    SpokenIs(before, response, offered, requests, results);
    assert TellsModel(response, gates, offered, world, results);
  }

  lemma RefusalIsSaid(before: seq<Row>, gates: seq<string>, offered: seq<string>, response: Response, world: World,
                      requests: seq<Request>)
    requires !response.HasFailed() && response.calls != [] && DistinctIds(response.calls)
    requires Requested(Chosen(response.calls, gates, true), world.draw, requests)
    requires RefusesOne(response.calls, gates, offered, world.handle)
    ensures Said(before, before + [TurnOf(response, requests, offered)], gates, offered, response, world)
    ensures EndingOf(response, gates, offered, world) == Some(CallRefused)
  {
    AsksSo(response, gates, world, requests);
    SpokenIs(before, response, offered, requests, []);
    assert TellsModel(response, gates, offered, world, []);
    hide AsksFor, RefusesOne;
  }

  lemma TurnIsSaid(before: seq<Row>, gates: seq<string>, offered: seq<string>, response: Response, world: World,
                   requests: seq<Request>, results: seq<Keyed<Output>>)
    requires !response.HasFailed() && response.calls != [] && DistinctIds(response.calls)
    requires Requested(Chosen(response.calls, gates, true), world.draw, requests)
    requires !RefusesOne(response.calls, gates, offered, world.handle)
    requires var now := Chosen(response.calls, gates, false); Answers(now, results) && Gives(now, world.handle, results)
    ensures Said(before, Landed(before, TurnOf(response, requests, offered), results), gates, offered, response, world)
    ensures EndingOf(response, gates, offered, world) == if requests == [] then None else Some(AwaitingApproval)
  {
    AsksSo(response, gates, world, requests);
    SpokenIs(before, response, offered, requests, results);
    assert TellsModel(response, gates, offered, world, results);
    hide AsksFor, RefusesOne, IsGated, TellsModel;
  }

  /** The first call refused is where it stops. */
  lemma StopsHere(turn: nat, calls: seq<Call>, gates: seq<string>, offered: seq<string>, handle: Call -> Handled,
                  i: nat)
    requires i < |calls| && !NeedsApproval(gates, calls[i].name) && IsRefused(calls[i], offered, handle)
    requires forall call | call in Chosen(calls[..i], gates, false) :: !IsRefused(call, offered, handle)
    ensures var ran := RanAt(turn, Chosen(calls[..i], gates, false));
            StopsAt(turn, Chosen(calls, gates, false), offered, handle,
                    if calls[i].name in offered then ran + [Ran(turn, calls[i].id, calls[i].name)] else ran)
    ensures RefusesOne(calls, gates, offered, handle)
  {
    var before, now := Chosen(calls[..i], gates, false), Chosen(calls, gates, false);
    ChosenEnd(calls, gates, false, i);
    ChosenGrows(calls, gates, i + 1, |calls|);
    assert calls[..|calls|] == calls;
    GatedIs(gates, calls[i].name);
    hide Chosen, NeedsApproval, IsGated, IsRefused;
    var n := |before|;
    assert now[..n + 1] == before + [calls[i]] && now[..n] == before;
    assert forall k | 0 <= k < n :: now[k] == before[k] && before[k] in before;
    RanAtEnd(turn, before, calls[i]);
    assert calls[i] in calls;
  }

  function TurnOf(response: Response, requests: seq<Request>, offered: seq<string>): (r: Row)
    ensures r.Assistant?
  {
    Assistant(response.text, response.calls, requests, if requests == [] then None else Some(offered))
  }

  /** A fresh request for each call that waits for a person. */
  method RequestAll(calls: seq<Call>, gates: seq<string>, draw: Call -> string) returns (requests: seq<Request>)
    ensures Requested(Chosen(calls, gates, true), draw, requests)
  {
    requests := [];
    assert calls[..0] == [];
    for i := 0 to |calls|
      invariant Requested(Chosen(calls[..i], gates, true), draw, requests)
    {
      ChosenEnd(calls, gates, true, i);
      if NeedsApproval(gates, calls[i].name) {
        requests := requests + [Request(draw(calls[i]), calls[i].id)];
      }
    }
    assert calls[..|calls|] == calls;
  }

  method NotRun(calls: seq<Call>, finish: string) returns (results: seq<Keyed<Output>>)
    ensures Answers(calls, results)
    ensures forall r | r in results :: r.value.text == "Not run: model step failed (" + finish + ")."
  {
    results := [];
    for i := 0 to |calls|
      invariant |results| == i && forall k | 0 <= k < i :: AnswersCall(calls[k], results[k])
      invariant forall r | r in results :: r.value.text == "Not run: model step failed (" + finish + ")."
    {
      var text := "Not run: model step failed (" + finish + ").";
      results := results + [Keyed(calls[i].id, Output(calls[i].name, calls[i].arguments, text))];
    }
  }

  /** The thread once a turn and what was recorded with it have landed. */
  function Landed(rows: seq<Row>, turn: Row, results: seq<Keyed<Output>>): seq<Row> {
    if results == [] then rows + [turn] else rows + [turn] + [ToolResult(results, [])]
  }

  lemma LandedIs(rows: seq<Row>, turn: Row, results: seq<Keyed<Output>>)
    requires Calls(turn)
    ensures View(Landed(rows, turn, results)) == Turned(View(rows), Normal(turn), results)
    ensures StopOffer(Landed(rows, turn, results)) == if turn.requests == [] then None else turn.toolNames
  {
    ViewEnd(rows, turn);
    ViewEnd(rows + [turn], ToolResult(results, []));
    var after := Landed(rows, turn, results);
    assert (rows + [turn])[..|rows|] == rows;
    if results != [] {
      assert after[..|after| - 1] == rows + [turn];
    }
  }

  /** An answer without calls, whether or not its step failed. */
  lemma PlainTurnLands(rows: seq<Row>, row: Row, ran: seq<Ran>)
    requires row.Assistant? && row.calls == [] && row.requests == []
    requires AllAnswered(View(rows)) && Logged(rows, ran)
    ensures AllAnswered(View(rows + [row])) && Sound(View(rows + [row])) && Logged(rows + [row], ran)
    ensures StopOffer(rows + [row]) == None
  {
    ViewEnd(rows, row);
    PlainRowKeeps(View(rows), Normal(row));
    LoggedStays(rows, row, ran);
  }

  lemma LandedKeeps(rows: seq<Row>, turn: Row, results: seq<Keyed<Output>>, ran: seq<Ran>, calls: seq<Call>)
    requires Calls(turn) && DistinctIds(turn.calls) && AllAnswered(View(rows)) && Logged(rows, ran) && RanOnce(ran)
    requires Distinct(results) && Keys(results) <= Ids(turn.calls)
    requires Ids(turn.calls) <= Keys(results) + Keys(ApprovalsOf(turn.requests))
    requires DistinctIds(calls) && Ids(calls) <= Keys(results)
    ensures var after, more := Landed(rows, turn, results), ran + RanAt(|View(rows)|, calls);
            && Sound(View(after))
            && (Keys(results) == Ids(turn.calls) ==> AllAnswered(View(after)))
            && Logged(after, more)
            && RanOnce(more)
  {
    var after, added := Landed(rows, turn, results), RanAt(|View(rows)|, calls);
    LandedIs(rows, turn, results);
    TurnKeeps(View(rows), Normal(turn), results);
    TurnedIs(View(rows), Normal(turn), results);
    LoggedStays(rows, turn, ran);
    if results != [] {
      LoggedStays(rows + [turn], ToolResult(results, []), ran);
    }
    AddedAnswered(rows, after, turn, results, calls);
    hide View, Sound, AllAnswered, Turned, Normal, Answered, Landed, RanAt;
    hide DistinctIds, Keys, Distinct, ApprovalsOf, Ids;
    RanOnceTogether(ran, added);
  }

  lemma AddedAnswered(rows: seq<Row>, after: seq<Row>, turn: Row, results: seq<Keyed<Output>>, calls: seq<Call>)
    requires Calls(turn) && View(after) == Turned(View(rows), Normal(turn), results)
    requires DistinctIds(calls) && Ids(calls) <= Keys(results)
    ensures var added := RanAt(|View(rows)|, calls);
            && RanOnce(added)
            && (forall e | e in added :: e.turn == |View(rows)|)
            && Logged(after, added)
  {
    var added := RanAt(|View(rows)|, calls);
    TurnedIs(View(rows), Normal(turn), results);
    hide View, Turned, Keys, ApprovalsOf, AnswerRow, DistinctIds, Normal;
    forall e | e in added
      ensures e.turn == |View(rows)| && e.callId in Ids(calls)
    {
      var i :| 0 <= i < |calls| && e == added[i];
      assert calls[i] in calls;
    }
  }

  /** A failed step answers every call itself. */
  lemma FailedTurnLands(rows: seq<Row>, turn: Row, results: seq<Keyed<Output>>, ran: seq<Ran>)
    requires Calls(turn) && DistinctIds(turn.calls) && turn.requests == [] && Answers(turn.calls, results)
    requires AllAnswered(View(rows)) && Logged(rows, ran) && RanOnce(ran)
    ensures var after := rows + [turn] + [ToolResult(results, [])];
            && AllAnswered(View(after))
            && Sound(View(after))
            && Logged(after, ran)
            && StopOffer(after) == None
            && after == Landed(rows, turn, results)
  {
    AnswersAreDistinct(turn.calls, results);
    LandedIs(rows, turn, results);
    LandedKeeps(rows, turn, results, ran, []);
    assert ran + RanAt(|View(rows)|, []) == ran;
  }

  /** A turn lands with the results of the calls that needed nobody. */
  lemma TurnLands(rows: seq<Row>, turn: Row, gates: seq<string>, results: seq<Keyed<Output>>, ran: seq<Ran>)
    requires Calls(turn) && DistinctIds(turn.calls)
    requires AsksEach(Chosen(turn.calls, gates, true), turn.requests)
    requires Answers(Chosen(turn.calls, gates, false), results)
    requires AllAnswered(View(rows)) && Logged(rows, ran) && RanOnce(ran)
    ensures var after := Landed(rows, turn, results);
            var more := ran + RanAt(|View(rows)|, Chosen(turn.calls, gates, false));
            && Sound(View(after))
            && (turn.requests == [] ==> AllAnswered(View(after)))
            && Logged(after, more)
            && RanOnce(more)
            && StopOffer(after) == if turn.requests == [] then None else turn.toolNames
  {
    var gated, ungated := Chosen(turn.calls, gates, true), Chosen(turn.calls, gates, false);
    ChosenHas(turn.calls, gates, true);
    ChosenHas(turn.calls, gates, false);
    AnswersAreDistinct(ungated, results);
    RequestedKeys(gated, turn.requests);
    forall call | call in turn.calls
      ensures call.id in Ids(gated) + Ids(ungated)
    {
      assert call in gated || call in ungated;
    }
    LandedIs(rows, turn, results);
    LandedKeeps(rows, turn, results, ran, ungated);
  }

  lemma AllResolved(rows: seq<Row>)
    requires AllAnswered(View(rows))
    ensures Sound(View(rows)) && forall gates :: Unresolved(rows, gates).None?
  {
    hide View, Unresolved;
    forall gates
      ensures Unresolved(rows, gates).None?
    {
      AnsweredIsResolved(rows, gates);
    }
  }

  lemma ResolutionKeeps(rows: seq<Row>, gates: seq<string>, settled: seq<Keyed<Output>>, bounded: seq<string>,
                        ran: seq<Ran>)
    requires Sound(View(rows)) && Unresolved(rows, gates).Some? && Logged(rows, ran) && RanOnce(ran)
    requires Answers(Unresolved(rows, gates).value.calls, settled)
    ensures var work := Unresolved(rows, gates).value;
            var more, after := ran + RanBy(work, bounded, |work.calls|), rows + [Resolution(work, settled)];
            RanOnce(more) && Logged(after, more) && AllAnswered(View(after)) && StopOffer(after) == StopOffer(rows)
  {
    ResolutionAnswers(rows, gates, settled);
    ResolutionLogs(rows, gates, settled, bounded, ran);
    hide View, Sound, AllAnswered, Unresolved, Logged, RanOnce, RanBy, Answers;
    var after := rows + [Resolution(Unresolved(rows, gates).value, settled)];
    assert after[..|rows|] == rows;
  }

  /** Each call is answered by its decision, and by its handler where that ran. */
  predicate AnsweredBy(work: Work, bounded: seq<string>, handle: Call -> Handled, settled: seq<Keyed<Output>>) {
    && |settled| == |work.calls|
    && forall i | 0 <= i < |settled| ::
         settled[i] == AnswerTo(work, bounded, work.calls[i], handle(work.calls[i]))
  }

  lemma OnlyRunsShow(work: Work, bounded: seq<string>, call: Call, handled: Handled, other: Handled)
    requires Runs(work, bounded, call) ==> handled == other
    ensures AnswerTo(work, bounded, call, handled) == AnswerTo(work, bounded, call, other)
  {
  }

  lemma ResolutionIs(work: Work, settled: seq<Keyed<Output>>)
    ensures Resolution(work, settled) == ToolResult(work.results + settled, work.decisions)
  {
  }

  /** One row answers the calls, each by its decision. */
  ghost predicate Resolved(before: seq<Row>, after: seq<Row>, work: Work, bounded: seq<string>,
                           handle: Call -> Handled)
  {
    exists settled ::
      && Answers(work.calls, settled)
      && AnsweredBy(work, bounded, handle, settled)
      && after == before + [ToolResult(work.results + settled, work.decisions)]
  }

  lemma {:induction false} RanByCalls(work: Work, bounded: seq<string>, k: nat)
    requires k <= |work.calls|
    ensures forall e | e in RanBy(work, bounded, k) ::
              e.turn == work.turn
              && exists i | 0 <= i < k ::
                   work.calls[i].id == e.callId && work.calls[i].name == e.tool && Runs(work, bounded, work.calls[i])
    ensures DistinctIds(work.calls) ==> RanOnce(RanBy(work, bounded, k))
  {
    if k > 0 {
      RanByCalls(work, bounded, k - 1);
      hide Runs;
    }
  }

  lemma RanOnceTogether(a: seq<Ran>, b: seq<Ran>)
    requires RanOnce(a) && RanOnce(b)
    requires forall x, y | x in a && y in b && x.turn == y.turn :: x.callId != y.callId
    ensures RanOnce(a + b)
  {
  }

  /** What a resolution runs had not run before, and is answered by what it records. */
  lemma ResolutionLogs(rows: seq<Row>, gates: seq<string>, settled: seq<Keyed<Output>>, bounded: seq<string>,
                       ran: seq<Ran>)
    requires Sound(View(rows)) && Unresolved(rows, gates).Some? && Logged(rows, ran) && RanOnce(ran)
    requires Answers(Unresolved(rows, gates).value.calls, settled)
    ensures var work := Unresolved(rows, gates).value;
            var more := ran + RanBy(work, bounded, |work.calls|);
            RanOnce(more) && Logged(rows + [Resolution(work, settled)], more)
  {
    var work := Unresolved(rows, gates).value;
    var t, row := work.turn, Resolution(work, settled);
    var added := RanBy(work, bounded, |work.calls|);
    StoppedIsLast(rows, gates);
    var turn := View(rows)[t];
    ReadsTurn(rows, t, turn, gates);
    RanByCalls(work, bounded, |work.calls|);
    AnyRow(rows, t, turn, row);
    AllInAnswer(rows, gates, settled);
    LoggedStays(rows, row, ran);
    hide View, Sound, Unresolved, Resolution, Stopped, Answered, DistinctIds, Runs, Keys, ApprovalsOf, Stands;
    forall e | e in added
      ensures e.turn == t && e.callId in Ids(work.calls)
    {
      var i :| 0 <= i < |work.calls| && work.calls[i].id == e.callId;
      assert work.calls[i] in work.calls;
    }
    RanOnceTogether(ran, added);
  }

  lemma AllInAnswer(rows: seq<Row>, gates: seq<string>, settled: seq<Keyed<Output>>)
    requires Sound(View(rows)) && Unresolved(rows, gates).Some?
    requires Answers(Unresolved(rows, gates).value.calls, settled)
    ensures var work := Unresolved(rows, gates).value;
            Ids(work.calls) <= Answered(rows + [Resolution(work, settled)], work.turn)
  {
    var view, work := View(rows), Unresolved(rows, gates).value;
    StoppedIsLast(rows, gates);
    ViewEnd(rows, Resolution(work, settled));
    hide View, Unresolved, Push, AnswerRow, Keys, Ids, Answers, Sound;
    AnswerHolds(view, work.turn, Resolution(work, settled));
    ResolutionHolds(work, settled);
  }

  lemma AnswerHolds(view: seq<Row>, t: nat, row: Row)
    requires t < |view| && Calls(view[t]) && Stopped(view, t) && row.ToolResult?
    ensures Keys(row.results) <= Keys(AnswerRow(Push(view, row), t).results)
  {
    OpenPush(view, t, row);
    hide Push, AnswerRow, Keys;
  }

  lemma ResolutionHolds(work: Work, settled: seq<Keyed<Output>>)
    requires Answers(work.calls, settled)
    ensures Ids(work.calls) <= Keys(Resolution(work, settled).results)
  {
    KeysConcat(work.results, settled);
    hide Keys, Ids;
    forall call | call in work.calls
      ensures call.id in Keys(settled)
    {
      AnsweredKeys(work.calls, settled, call);
    }
    IdsWithin(work.calls, Keys(settled));
  }

  lemma IdsWithin(calls: seq<Call>, keys: set<string>)
    requires forall call | call in calls :: call.id in keys
    ensures Ids(calls) <= keys
  {
  }

  lemma LoggedStays(rows: seq<Row>, row: Row, ran: seq<Ran>)
    requires Logged(rows, ran) && (row.User? || row.Assistant? || row.ToolResult?)
    ensures Logged(rows + [row], ran)
  {
    forall e | e in ran
      ensures && e.turn < |View(rows + [row])|
              && Calls(View(rows + [row])[e.turn])
              && e.callId in Answered(rows + [row], e.turn)
    {
      AnyRow(rows, e.turn, View(rows)[e.turn], row);
    }
  }
}

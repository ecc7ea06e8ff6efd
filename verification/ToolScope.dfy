/** Which tools a resumed run may be offered: the offer stored beside the stopped turn. */
module ToolScope {
  import opened Dicts
  import opened ThreadRows
  import opened Wrappers

  datatype Scope = Scope(names: seq<string>, legacy: bool)

  predicate ValidName(name: string) {
    name != "" && name != "*"
  }

  predicate AllValid(names: seq<string>) {
    forall i | 0 <= i < |names| :: ValidName(names[i])
  }

  /** Each name once, where it first stands. */
  function Once(names: seq<string>): (r: seq<string>)
    ensures forall name :: name in r <==> name in names
  {
    if names == [] then []
    else
      var before, last := Once(names[..|names| - 1]), names[|names| - 1];
      if last in before then before else before + [last]
  }

  /** Decisions met first stand. */
  function Noted(decisions: map<string, bool>, responses: seq<Keyed<Verdict>>): map<string, bool>
    decreases responses
  {
    if responses == [] then decisions
    else
      var r := responses[0];
      Noted(if r.key in decisions then decisions else decisions[r.key := r.value.approved], responses[1..])
  }

  function ApprovalIds(requests: seq<Request>): seq<string> {
    seq(|requests|, i requires 0 <= i < |requests| => requests[i].approvalId)
  }

  /** A stored turn that asked for as many approvals, all of them among these. */
  predicate IsStoredTurn(row: Row, requests: seq<Request>) {
    row.Assistant?
    && |row.requests| == |requests|
    && forall i | 0 <= i < |row.requests| :: row.requests[i].approvalId in ApprovalIds(requests)
  }

  function StoredTurn(rows: seq<Row>, requests: seq<Request>): (r: Option<Row>)
    ensures r.None? ==> forall i | 0 <= i < |rows| :: !IsStoredTurn(rows[i], requests)
    ensures r.Some? ==>
              exists i | 0 <= i < |rows| ::
                rows[i] == r.value && IsStoredTurn(rows[i], requests)
                && forall j | i < j < |rows| :: !IsStoredTurn(rows[j], requests)
  {
    if rows == [] then None
    else
      var last := rows[|rows| - 1];
      if IsStoredTurn(last, requests) then Some(last) else StoredTurn(rows[..|rows| - 1], requests)
  }

  predicate ApprovedCall(requests: seq<Request>, decisions: map<string, bool>, callId: string) {
    exists i | 0 <= i < |requests| ::
      requests[i].callId == callId && requests[i].approvalId in decisions && decisions[requests[i].approvalId]
  }

  function ApprovedNames(calls: seq<Call>, requests: seq<Request>, decisions: map<string, bool>): (r: seq<string>)
    ensures AllValid(r)
    ensures forall name | name in r ::
              exists i | 0 <= i < |calls| :: calls[i].name == name && ApprovedCall(requests, decisions, calls[i].id)
  {
    if calls == [] then []
    else
      var call := calls[0];
      (if ApprovedCall(requests, decisions, call.id) && ValidName(call.name) then [call.name] else [])
      + ApprovedNames(calls[1..], requests, decisions)
  }

  function Authority(rows: seq<Row>, turn: Row, decisions: map<string, bool>): Scope
    requires turn.Assistant?
  {
    var stored := StoredTurn(rows, turn.requests);
    if stored.Some? && stored.value.toolNames.Some? && AllValid(stored.value.toolNames.value) then
      Scope(Once(stored.value.toolNames.value), false)
    else
      Scope(Once(ApprovedNames(turn.calls, turn.requests, decisions)), true)
  }

  function ScopeBack(rows: seq<Row>, view: seq<Row>, decisions: map<string, bool>): Option<Scope> {
    if view == [] then None
    else
      var before, last := view[..|view| - 1], view[|view| - 1];
      match last
      case ToolResult(_, responses) => ScopeBack(rows, before, Noted(decisions, responses))
      case User(_) => None
      case Assistant(_, _, requests, _) => if requests == [] then None else Some(Authority(rows, last, decisions))
      case _ => ScopeBack(rows, before, decisions)
  }

  function ScopeOf(rows: seq<Row>): Option<Scope> {
    ScopeBack(rows, View(rows), map[])
  }

  method ApprovalToolScope(rows: seq<Row>) returns (scope: Option<Scope>)
    ensures scope == ScopeOf(rows)
  {
    var view := ThreadView(rows);
    var decisions: map<string, bool> := map[];
    var i := |view|;
    assert view[..i] == view;
    while i > 0
      invariant 0 <= i <= |view|
      invariant ScopeBack(rows, view[..i], decisions) == ScopeOf(rows)
    {
      i := i - 1;
      assert view[..i + 1][..i] == view[..i];
      var row := view[i];
      if row.ToolResult? {
        decisions := NoteAll(decisions, row.decisions);
      } else if row.User? {
        return None;
      } else if row.Assistant? {
        if row.requests == [] {
          return None;
        }
        return Some(Authority(rows, row, decisions));
      }
    }
    scope := None;
  }

  method NoteAll(decisions: map<string, bool>, responses: seq<Keyed<Verdict>>) returns (noted: map<string, bool>)
    ensures noted == Noted(decisions, responses)
  {
    noted := decisions;
    for i := 0 to |responses|
      invariant Noted(noted, responses[i..]) == Noted(decisions, responses)
    {
      if responses[i].key !in noted {
        noted := noted[responses[i].key := responses[i].value.approved];
      }
      assert responses[i..][1..] == responses[i + 1..];
    }
  }

  // ----- a stopped turn and what follows it -----

  predicate OnlyResults(rows: seq<Row>) {
    forall i | 0 <= i < |rows| :: rows[i].ToolResult?
  }

  /** Tool result rows behind a row of another kind read as one. */
  lemma {:induction false} ViewOfTail(base: seq<Row>, tail: seq<Row>)
    requires OnlyResults(tail)
    requires View(base) != [] && !View(base)[|View(base)| - 1].ToolResult?
    ensures View(base + tail) == View(base) + if tail == [] then [] else [OneRow(tail)]
    decreases |tail|
  {
    if tail == [] {
      assert base + tail == base;
    } else {
      var before, last := tail[..|tail| - 1], tail[|tail| - 1];
      assert tail == before + [last];
      assert base + tail == base + before + [last];
      ViewOfTail(base, before);
      ViewEnd(base + before, last);
      if before == [] {
        assert tail == [last];
        hide View, Fold;
      } else {
        OneRowEnd(before, last);
        hide View, OneRow, Fold;
        PushOnto(View(base), OneRow(before), last);
      }
    }
  }

  lemma PushOnto(view: seq<Row>, last: Row, row: Row)
    requires last.ToolResult? && row.ToolResult?
    ensures Push(view + [last], row) == view + [Fold(last, row)]
  {
    assert (view + [last])[..|view|] == view;
  }

  /** A stopped turn whose stored offer is valid is resumed with that offer, whatever was decided. */
  lemma StoppedTurnKeepsItsOffer(before: seq<Row>, turn: Row, tail: seq<Row>)
    requires turn.Assistant? && turn.requests != [] && turn.toolNames.Some? && AllValid(turn.toolNames.value)
    requires OnlyResults(tail)
    ensures ScopeOf(before + [turn] + tail) == Some(Scope(Once(turn.toolNames.value), false))
  {
    var rows := before + [turn] + tail;
    ViewEnd(before, turn);
    ViewOfTail(before + [turn], tail);
    StoredTurnIsLast(before, turn, tail);
    var view, shown := View(before), Normal(turn);
    var noted := if tail == [] then map[] else Noted(map[], OneRow(tail).decisions);
    StoredOfferIsAuthority(rows, turn, noted);
    TurnGivesScope(rows, view, shown, noted);
    if tail != [] {
      hide View, OneRow, Authority, StoredTurn, Normal, Noted, ScopeBack;
      ResultsAreNoted(rows, view + [shown], OneRow(tail), map[]);
    }
  }

  lemma StoredOfferIsAuthority(rows: seq<Row>, turn: Row, decisions: map<string, bool>)
    requires turn.Assistant? && turn.toolNames.Some? && AllValid(turn.toolNames.value)
    requires StoredTurn(rows, turn.requests) == Some(turn)
    ensures Authority(rows, Normal(turn), decisions) == Scope(Once(turn.toolNames.value), false)
  {
    hide StoredTurn;
  }

  lemma ResultsAreNoted(rows: seq<Row>, view: seq<Row>, row: Row, decisions: map<string, bool>)
    requires row.ToolResult?
    ensures ScopeBack(rows, view + [row], decisions) == ScopeBack(rows, view, Noted(decisions, row.decisions))
  {
    assert (view + [row])[..|view|] == view;
  }

  lemma TurnGivesScope(rows: seq<Row>, view: seq<Row>, turn: Row, decisions: map<string, bool>)
    requires turn.Assistant? && turn.requests != []
    ensures ScopeBack(rows, view + [turn], decisions) == Some(Authority(rows, turn, decisions))
  {
  }

  lemma {:induction false} StoredTurnIsLast(before: seq<Row>, turn: Row, tail: seq<Row>)
    requires turn.Assistant? && OnlyResults(tail)
    ensures StoredTurn(before + [turn] + tail, turn.requests) == Some(turn)
    decreases |tail|
  {
    var rows := before + [turn] + tail;
    if tail == [] {
      assert rows == before + [turn];
      forall i | 0 <= i < |turn.requests|
        ensures turn.requests[i].approvalId in ApprovalIds(turn.requests)
      {
        assert ApprovalIds(turn.requests)[i] == turn.requests[i].approvalId;
      }
    } else {
      assert rows[..|rows| - 1] == before + [turn] + tail[..|tail| - 1];
      StoredTurnIsLast(before, turn, tail[..|tail| - 1]);
    }
  }

  // ----- narrowing -----

  predicate Covers(names: seq<string>, name: string) {
    "*" in names || name in names
  }

  /** A caller may ask for less than a mode reaches, never for more. */
  function Narrowed(ceiling: seq<string>, requested: Option<seq<string>>): (r: Result<seq<string>, string>)
    ensures r.Ok? ==> forall name | "*" in r.value || name in r.value :: "*" in ceiling || name in ceiling
    ensures r.Ok? && requested.Some? ==>
              forall name | "*" in r.value || name in r.value :: "*" in requested.value || name in requested.value
    ensures requested.None? || "*" in requested.value ==> r == Ok(ceiling)
    ensures r.Ok? && requested.Some? && "*" !in requested.value ==> r == Ok(requested.value)
    ensures r.Err? <==> requested.Some? && "*" !in requested.value && "*" !in ceiling
                        && exists name :: name in requested.value && name !in ceiling
    ensures r.Err? ==> r.error in requested.value && r.error !in ceiling
  {
    if requested.None? || "*" in requested.value then Ok(ceiling)
    else if "*" in ceiling then Ok(requested.value)
    else
      var refused := FirstOutside(requested.value, ceiling);
      if refused.Some? then Err(refused.value) else Ok(requested.value)
  }

  /** The first name that the ceiling does not hold. */
  function FirstOutside(requested: seq<string>, ceiling: seq<string>): (r: Option<string>)
    ensures r.Some? ==> r.value in requested && r.value !in ceiling
    ensures r.None? ==> forall name | name in requested :: name in ceiling
  {
    if requested == [] then None
    else if requested[0] !in ceiling then Some(requested[0])
    else FirstOutside(requested[1..], ceiling)
  }

  function Kept(offered: seq<string>, scope: Scope): (r: seq<string>)
    ensures forall name :: name in r <==> name in offered && name in scope.names
  {
    if offered == [] then []
    else (if offered[0] in scope.names then [offered[0]] else []) + Kept(offered[1..], scope)
  }

  function Reached(offered: seq<string>, mode: seq<string>): (r: seq<string>)
    ensures forall name :: name in r <==> name in offered && Covers(mode, name)
  {
    if offered == [] then []
    else (if Covers(mode, offered[0]) then [offered[0]] else []) + Reached(offered[1..], mode)
  }

  /** What a run starts with, given what the stopped turn left. */
  function AtStart(offered: seq<string>, mode: seq<string>, scope: Option<Scope>): (r: seq<string>)
    ensures scope.None? ==> r == offered
    ensures forall name :: name in r <==>
              && name in offered
              && (scope.Some? ==> name in scope.value.names && ("*" in mode || name in mode))
  {
    if scope.None? then offered else Reached(Kept(offered, scope.value), mode)
  }

  /** What is left once the scope is read again under the lock. */
  function Bounded(offered: seq<string>, scope: Option<Scope>): (r: seq<string>)
    ensures forall name :: name in r <==> name in offered && scope.Some? && name in scope.value.names
  {
    if scope.None? then [] else Kept(offered, scope.value)
  }

  lemma {:induction false} KeptSplits(first: seq<string>, second: seq<string>, scope: Scope)
    ensures Kept(first + second, scope) == Kept(first, scope) + Kept(second, scope)
  {
    if first == [] {
      assert first + second == second;
    } else {
      assert (first + second)[1..] == first[1..] + second;
      KeptSplits(first[1..], second, scope);
    }
  }

  lemma {:induction false} ReachedSplits(first: seq<string>, second: seq<string>, mode: seq<string>)
    ensures Reached(first + second, mode) == Reached(first, mode) + Reached(second, mode)
  {
    if first == [] {
      assert first + second == second;
    } else {
      assert (first + second)[1..] == first[1..] + second;
      ReachedSplits(first[1..], second, mode);
    }
  }

  /** Whatever is offered of two lists is offered of each, in the same order. */
  lemma OffersSplit(first: seq<string>, second: seq<string>, mode: seq<string>, scope: Option<Scope>)
    ensures AtStart(first + second, mode, scope) == AtStart(first, mode, scope) + AtStart(second, mode, scope)
    ensures Bounded(first + second, scope) == Bounded(first, scope) + Bounded(second, scope)
  {
    if scope.Some? {
      KeptSplits(first, second, scope.value);
      ReachedSplits(Kept(first, scope.value), Kept(second, scope.value), mode);
    }
  }
}

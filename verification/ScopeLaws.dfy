/** What the scope of a thread says, from the rows themselves. */
module ScopeLaws {
  import opened Dicts
  import opened ThreadRows
  import opened ToolScope
  import opened Wrappers

  // ----- each name once -----

  /** Where a name first stands. */
  function FirstAt(names: seq<string>, name: string): (k: nat)
    requires name in names
    ensures k < |names| && names[k] == name && forall i | 0 <= i < k :: names[i] != name
  {
    if names[0] == name then 0 else 1 + FirstAt(names[1..], name)
  }

  /** No name stands twice, and each keeps the place where it first stood. */
  lemma {:induction false} OnceKeepsPlaces(names: seq<string>, i: nat, j: nat)
    requires i < j < |Once(names)|
    ensures Once(names)[i] in names && Once(names)[j] in names
    ensures FirstAt(names, Once(names)[i]) < FirstAt(names, Once(names)[j])
    decreases |names|
  {
    var before, last := names[..|names| - 1], names[|names| - 1];
    assert names == before + [last];
    if j < |Once(before)| {
      OnceKeepsPlaces(before, i, j);
      FirstStays(before, last, Once(before)[i]);
      FirstStays(before, last, Once(before)[j]);
    } else {
      FirstStays(before, last, Once(before)[i]);
      assert Once(names)[j] == last;
    }
  }

  lemma FirstStays(names: seq<string>, last: string, name: string)
    requires name in names
    ensures FirstAt(names + [last], name) == FirstAt(names, name)
  {
    var i, j := FirstAt(names + [last], name), FirstAt(names, name);
    assert (names + [last])[j] == name;
  }

  // ----- decisions -----

  /** The decision that stands for an approval: of the last row from `from` on that has one, its first. */
  function Standing(view: seq<Row>, from: nat, approvalId: string): Option<Verdict>
    decreases |view| - from
  {
    if from >= |view| then None
    else
      var later := Standing(view, from + 1, approvalId);
      if later.Some? then later
      else if view[from].ToolResult? then Find(view[from].decisions, approvalId)
      else None
  }

  /** The map holds what stands from there on. */
  ghost predicate Holds(decisions: map<string, bool>, view: seq<Row>, from: nat) {
    forall id: string :: HoldsOne(decisions, view, from, id)
  }

  ghost predicate HoldsOne(decisions: map<string, bool>, view: seq<Row>, from: nat, id: string) {
    var verdict := Standing(view, from, id);
    && (id in decisions <==> verdict.Some?)
    && (verdict.Some? ==> decisions[id] == verdict.value.approved)
  }

  lemma {:induction false} NotedIs(decisions: map<string, bool>, responses: seq<Keyed<Verdict>>, id: string)
    ensures var noted, found := Noted(decisions, responses), Find(responses, id);
            && (id in noted <==> id in decisions || found.Some?)
            && (id in decisions ==> noted[id] == decisions[id])
            && (id !in decisions && found.Some? ==> noted[id] == found.value.approved)
    decreases |responses|
  {
    if responses != [] {
      var r := responses[0];
      NotedIs(if r.key in decisions then decisions else decisions[r.key := r.value.approved], responses[1..], id);
    }
  }

  lemma {:induction false} NotedHolds(decisions: map<string, bool>, view: seq<Row>, from: nat)
    requires 0 < from <= |view| && Holds(decisions, view, from)
    ensures Holds(if view[from - 1].ToolResult? then Noted(decisions, view[from - 1].decisions) else decisions, view,
                  from - 1)
  {
    var at := from - 1;
    if view[at].ToolResult? {
      var noted := Noted(decisions, view[at].decisions);
      forall id: string
        ensures HoldsOne(noted, view, at, id)
      {
        NotedIs(decisions, view[at].decisions, id);
        hide Noted, Find;
        assert HoldsOne(decisions, view, from, id);
      }
    } else {
      forall id: string
        ensures HoldsOne(decisions, view, at, id)
      {
        assert HoldsOne(decisions, view, from, id);
      }
    }
  }

  // ----- the scope -----

  predicate Speaks(row: Row) {
    row.User? || row.Assistant?
  }

  /** Going back over rows that neither ask nor answer, the decisions are gathered. */
  lemma {:induction false} ScopeGathers(rows: seq<Row>, view: seq<Row>, at: nat, from: nat,
                                        decisions: map<string, bool>)
    returns (gathered: map<string, bool>)
    requires at <= from <= |view| && Holds(decisions, view, from)
    requires forall k | at <= k < from :: !Speaks(view[k])
    ensures Holds(gathered, view, at)
    ensures ScopeBack(rows, view[..from], decisions) == ScopeBack(rows, view[..at], gathered)
    decreases from
  {
    if at == from {
      gathered := decisions;
    } else {
      var last := view[from - 1];
      assert view[..from][..from - 1] == view[..from - 1] && view[..from][from - 1] == last;
      NotedHolds(decisions, view, from);
      var more := if last.ToolResult? then Noted(decisions, last.decisions) else decisions;
      hide Holds;
      gathered := ScopeGathers(rows, view, at, from - 1, more);
      assert ScopeBack(rows, view[..from], decisions) == ScopeBack(rows, view[..from - 1], more);
    }
  }

  /** The offer stored with a turn that asked for as many approvals, all of them among these; the latest
      such turn, and only if every name of it is a tool's. */
  ghost predicate Offer(rows: seq<Row>, requests: seq<Request>, names: seq<string>) {
    (exists i | 0 <= i < |rows| ::
       && AskedSo(rows[i], requests) && rows[i].toolNames == Some(names)
       && forall j | i < j < |rows| :: !AskedSo(rows[j], requests))
    && forall name | name in names :: name != "" && name != "*"
  }

  ghost predicate AskedSo(row: Row, requests: seq<Request>) {
    && row.Assistant?
    && |row.requests| == |requests|
    && forall r | r in row.requests :: exists q | q in requests :: q.approvalId == r.approvalId
  }

  lemma AskedSoIs(row: Row, requests: seq<Request>)
    ensures IsStoredTurn(row, requests) <==> AskedSo(row, requests)
  {
    var ids := ApprovalIds(requests);
    assert |ids| == |requests| && forall k | 0 <= k < |ids| :: ids[k] == requests[k].approvalId;
    forall id: string
      ensures id in ids <==> exists q | q in requests :: q.approvalId == id
    {
      if id in ids {
        var k :| 0 <= k < |ids| && ids[k] == id;
        assert requests[k] in requests;
      }
      if q :| q in requests && q.approvalId == id {
        var k :| 0 <= k < |requests| && requests[k] == q;
        assert ids[k] == id;
      }
    }
    hide ApprovalIds;
    if row.Assistant? && AskedSo(row, requests) {
      forall i | 0 <= i < |row.requests|
        ensures row.requests[i].approvalId in ids
      {
        assert row.requests[i] in row.requests;
      }
    }
  }

  lemma AllValidIs(names: seq<string>)
    ensures AllValid(names) <==> forall name | name in names :: name != "" && name != "*"
  {
    if AllValid(names) {
      forall name | name in names
        ensures name != "" && name != "*"
      {
        var k :| 0 <= k < |names| && names[k] == name;
        assert ValidName(names[k]);
      }
    } else {
      var k :| 0 <= k < |names| && !ValidName(names[k]);
      assert names[k] in names;
    }
  }

  lemma OfferIs(rows: seq<Row>, requests: seq<Request>, i: nat, names: seq<string>)
    requires i < |rows| && AskedSo(rows[i], requests) && forall j | i < j < |rows| :: !AskedSo(rows[j], requests)
    ensures Offer(rows, requests, names) <==> rows[i].toolNames == Some(names) && AllValid(names)
  {
    AllValidIs(names);
    if Offer(rows, requests, names) {
      var k :| 0 <= k < |rows| && AskedSo(rows[k], requests) && rows[k].toolNames == Some(names)
               && forall j | k < j < |rows| :: !AskedSo(rows[j], requests);
      assert k == i;
    }
  }

  lemma {:induction false} OfferIsStored(rows: seq<Row>, requests: seq<Request>)
    ensures var stored := StoredTurn(rows, requests);
            forall names :: Offer(rows, requests, names) <==>
              stored.Some? && stored.value.toolNames == Some(names) && AllValid(names)
  {
    forall i | 0 <= i < |rows|
      ensures IsStoredTurn(rows[i], requests) <==> AskedSo(rows[i], requests)
    {
      AskedSoIs(rows[i], requests);
    }
    hide AllValid;
    var stored := StoredTurn(rows, requests);
    if stored.Some? {
      var i :| 0 <= i < |rows| && rows[i] == stored.value && IsStoredTurn(rows[i], requests)
               && forall j | i < j < |rows| :: !IsStoredTurn(rows[j], requests);
      assert rows[i].Assistant?;
      hide StoredTurn, Offer, IsStoredTurn, AskedSo;
      forall names
        ensures Offer(rows, requests, names) <==> stored.value.toolNames == Some(names) && AllValid(names)
      {
        OfferIs(rows, requests, i, names);
      }
    } else {
      hide IsStoredTurn, AskedSo;
    }
  }

  /** A tool of one of the turn's calls, whose approval stands. */
  ghost predicate ApprovedTool(view: seq<Row>, at: nat, name: string)
    requires at < |view| && view[at].Assistant?
  {
    && name != "" && name != "*"
    && exists call, r | call in view[at].calls && r in view[at].requests ::
         && call.name == name && r.callId == call.id
         && var verdict := Standing(view, at + 1, r.approvalId);
            verdict.Some? && verdict.value.approved
  }

  lemma ApprovedCallIs(view: seq<Row>, at: nat, decisions: map<string, bool>, callId: string)
    requires at < |view| && view[at].Assistant? && Holds(decisions, view, at + 1)
    ensures ApprovedCall(view[at].requests, decisions, callId) <==>
            exists r | r in view[at].requests ::
              && r.callId == callId
              && var verdict := Standing(view, at + 1, r.approvalId);
                 verdict.Some? && verdict.value.approved
  {
    var requests := view[at].requests;
    hide Standing;
    assert forall r | r in requests :: HoldsOne(decisions, view, at + 1, r.approvalId);
    if r :| r in requests && r.callId == callId
            && Standing(view, at + 1, r.approvalId).Some? && Standing(view, at + 1, r.approvalId).value.approved {
      var i :| 0 <= i < |requests| && requests[i] == r;
      assert requests[i].approvalId in decisions && decisions[requests[i].approvalId];
    }
  }

  lemma {:induction false} ApprovedNamesHave(calls: seq<Call>, requests: seq<Request>, decisions: map<string, bool>,
                                             name: string)
    ensures name in ApprovedNames(calls, requests, decisions) <==>
            && ValidName(name)
            && exists call | call in calls :: call.name == name && ApprovedCall(requests, decisions, call.id)
  {
    if calls != [] {
      ApprovedNamesHave(calls[1..], requests, decisions, name);
      assert calls == [calls[0]] + calls[1..];
      hide ApprovedCall, ValidName;
    }
  }

  lemma {:induction false} ApprovedToolIs(view: seq<Row>, at: nat, decisions: map<string, bool>, name: string)
    requires at < |view| && view[at].Assistant? && Holds(decisions, view, at + 1)
    ensures name in ApprovedNames(view[at].calls, view[at].requests, decisions) <==> ApprovedTool(view, at, name)
  {
    ApprovedNamesHave(view[at].calls, view[at].requests, decisions, name);
    forall callId: string
      ensures ApprovedCall(view[at].requests, decisions, callId) <==>
              exists r | r in view[at].requests ::
                && r.callId == callId
                && var verdict := Standing(view, at + 1, r.approvalId);
                   verdict.Some? && verdict.value.approved
    {
      ApprovedCallIs(view, at, decisions, callId);
    }
    hide ApprovedCall, ApprovedNames, Standing, Holds;
  }

  /** What one resume may be offered: the offer stored with the stopped turn, or else the tools of the
      calls whose latest decision approves them. */
  ghost predicate GivesScope(rows: seq<Row>, view: seq<Row>, at: nat, scope: Scope)
    requires at < |view| && view[at].Assistant?
  {
    var requests := view[at].requests;
    if exists names :: Offer(rows, requests, names) then
      !scope.legacy && exists names :: Offer(rows, requests, names) && scope.names == Once(names)
    else
      && scope.legacy
      && (forall name :: name in scope.names <==> ApprovedTool(view, at, name))
      && forall i, j | 0 <= i < j < |scope.names| :: scope.names[i] != scope.names[j]
  }

  /** The last row that speaks says what scope a thread has: none behind a user's words or a turn that
      asked for nothing, and none when nobody has spoken. */
  lemma {:induction false} ScopeTells(rows: seq<Row>, at: nat)
    requires at <= |View(rows)|
    requires forall k | at <= k < |View(rows)| :: !Speaks(View(rows)[k])
    requires at > 0 ==> Speaks(View(rows)[at - 1])
    ensures var view, scope := View(rows), ScopeOf(rows);
            if at == 0 || view[at - 1].User? || view[at - 1].requests == [] then scope.None?
            else scope.Some? && GivesScope(rows, view, at - 1, scope.value)
  {
    var view := View(rows);
    assert view[..|view|] == view;
    assert Holds(map[], view, |view|);
    var decisions := ScopeGathers(rows, view, at, |view|, map[]);
    hide View;
    if at > 0 {
      assert view[..at][at - 1] == view[at - 1];
      if view[at - 1].Assistant? {
        AuthorityGives(rows, view, at - 1, decisions);
      }
    }
    hide Authority, GivesScope;
  }

  lemma {:induction false} AuthorityGives(rows: seq<Row>, view: seq<Row>, at: nat, decisions: map<string, bool>)
    requires at < |view| && view[at].Assistant? && Holds(decisions, view, at + 1)
    ensures GivesScope(rows, view, at, Authority(rows, view[at], decisions))
  {
    OfferIsStored(rows, view[at].requests);
    forall name: string
      ensures name in ApprovedNames(view[at].calls, view[at].requests, decisions) <==> ApprovedTool(view, at, name)
    {
      ApprovedToolIs(view, at, decisions, name);
    }
    var names := Once(ApprovedNames(view[at].calls, view[at].requests, decisions));
    forall i, j | 0 <= i < j < |names|
      ensures names[i] != names[j]
    {
      OnceKeepsPlaces(ApprovedNames(view[at].calls, view[at].requests, decisions), i, j);
    }
    hide StoredTurn, Offer, ApprovedNames, ApprovedTool, Holds, AllValid;
  }
}

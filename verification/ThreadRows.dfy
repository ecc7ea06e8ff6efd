/** Stored rows, and the thread as the model is shown it. */
module ThreadRows {
  import opened Dicts
  import opened Wrappers

  datatype Call = Call(id: string, name: string, arguments: string)

  /** What a call gave, keyed by the call's id. */
  datatype Output = Output(tool: string, arguments: string, text: string)

  /** What a person decided, keyed by the approval's id. */
  datatype Verdict = Verdict(approved: bool, reason: Option<string>)

  datatype Request = Request(approvalId: string, callId: string)

  /** A stored row.  The `Old` rows are those of 0.1.0, which kept each result, request and decision in
      a row of its own.  `toolNames` is the offer stored beside a turn that stopped. */
  datatype Row =
    | User(text: string)
    | Assistant(text: string, calls: seq<Call>, requests: seq<Request>, toolNames: Option<seq<string>>)
    | ToolResult(results: seq<Keyed<Output>>, decisions: seq<Keyed<Verdict>>)
    | OldResult(callId: string, tool: string, text: string)
    | OldRequest(ids: seq<string>)
    | OldDecision(approvalId: string, verdict: Verdict)
    | Other(kind: string, text: string)

  // ----- the view, row by row -----

  function Legacy(ids: seq<string>): (r: seq<Request>)
    ensures |r| == |ids|
  {
    seq(|ids|, i requires 0 <= i < |ids| => Request(ids[i], ids[i]))
  }

  /** The row in today's shape. */
  function Normal(row: Row): (r: Row)
    requires !row.OldRequest?
    ensures !(r.OldResult? || r.OldDecision? || r.OldRequest?)
  {
    match row
    case Assistant(text, calls, requests, _) => Assistant(text, calls, requests, None)
    case OldResult(callId, tool, text) => ToolResult([Keyed(callId, Output(tool, "{}", text))], [])
    case OldDecision(approvalId, verdict) => ToolResult([], [Keyed(approvalId, verdict)])
    case _ => row
  }

  function Asked(row: Row, more: seq<Request>): Row {
    if row.Assistant? then row.(requests := row.requests + more) else row
  }

  /** The requests join the latest assistant row, if there is one. */
  function AddRequests(view: seq<Row>, more: seq<Request>): (r: seq<Row>)
    ensures |r| == |view|
  {
    if view == [] then []
    else
      var before, last := view[..|view| - 1], view[|view| - 1];
      if last.Assistant? then before + [Asked(last, more)] else AddRequests(before, more) + [last]
  }

  function Fold(earlier: Row, later: Row): (r: Row)
    requires earlier.ToolResult? && later.ToolResult?
    ensures r.ToolResult?
  {
    ToolResult(Collapse(earlier.results + later.results), Collapse(earlier.decisions + later.decisions))
  }

  function Push(view: seq<Row>, row: Row): (r: seq<Row>)
    ensures |view| <= |r| <= |view| + 1 && r != []
  {
    if row.ToolResult? && view != [] && view[|view| - 1].ToolResult? then
      view[..|view| - 1] + [Fold(view[|view| - 1], row)]
    else view + [row]
  }

  function Step(view: seq<Row>, row: Row): seq<Row> {
    if row.OldRequest? then AddRequests(view, Legacy(row.ids)) else Push(view, Normal(row))
  }

  function View(rows: seq<Row>): seq<Row> {
    if rows == [] then [] else Step(View(rows[..|rows| - 1]), rows[|rows| - 1])
  }

  method FoldRows(earlier: Row, later: Row) returns (folded: Row)
    requires earlier.ToolResult? && later.ToolResult?
    ensures folded == Fold(earlier, later)
  {
    var results := Build(earlier.results + later.results);
    var decisions := Build(earlier.decisions + later.decisions);
    folded := ToolResult(results, decisions);
  }

  method Normalise(row: Row, view: seq<Row>) returns (normal: Option<Row>, amended: seq<Row>)
    ensures row.OldRequest? ==> normal == None && amended == AddRequests(view, Legacy(row.ids))
    ensures !row.OldRequest? ==> normal == Some(Normal(row)) && amended == view
  {
    amended := view;
    if !row.OldRequest? {
      return Some(Normal(row)), view;
    }
    normal := None;
    var i := |view|;
    assert view[..i] == view && view[i..] == [];
    while i > 0
      invariant 0 <= i <= |view|
      invariant AddRequests(view, Legacy(row.ids)) == AddRequests(view[..i], Legacy(row.ids)) + view[i..]
    {
      i := i - 1;
      var last := view[i];
      assert view[..i + 1][..i] == view[..i] && view[..i + 1][i] == last;
      assert view[i..] == [last] + view[i + 1..];
      if last.Assistant? {
        var more := last.requests;
        for k := 0 to |row.ids|
          invariant more == last.requests + Legacy(row.ids)[..k]
        {
          more := more + [Request(row.ids[k], row.ids[k])];
        }
        assert Legacy(row.ids)[..|row.ids|] == Legacy(row.ids);
        amended := view[..i] + [last.(requests := more)] + view[i + 1..];
        return;
      }
    }
  }

  method ThreadView(rows: seq<Row>) returns (view: seq<Row>)
    ensures view == View(rows)
  {
    view := [];
    for i := 0 to |rows|
      invariant view == View(rows[..i])
    {
      assert rows[..i + 1] == rows[..i] + [rows[i]];
      ViewEnd(rows[..i], rows[i]);
      hide View;
      var normal, amended := Normalise(rows[i], view);
      view := amended;
      if normal.Some? {
        var row := normal.value;
        if row.ToolResult? && view != [] && view[|view| - 1].ToolResult? {
          var folded := FoldRows(view[|view| - 1], row);
          view := view[..|view| - 1] + [folded];
        } else {
          view := view + [row];
        }
      }
    }
    assert rows[..|rows|] == rows;
  }

  lemma ViewEnd(rows: seq<Row>, row: Row)
    ensures View(rows + [row]) == Step(View(rows), row)
  {
    assert (rows + [row])[..|rows|] == rows;
  }

  // ----- attach, then merge -----

  /** The requests of 0.1.0 that stand before the next assistant row. */
  function Late(rows: seq<Row>): seq<Request> {
    if rows == [] || rows[0].Assistant? then []
    else (if rows[0].OldRequest? then Legacy(rows[0].ids) else []) + Late(rows[1..])
  }

  /** Every row in today's shape, an assistant row with every request recorded before the next one. */
  function Attached(rows: seq<Row>): seq<Row> {
    if rows == [] then []
    else
      var rest := Attached(rows[1..]);
      if rows[0].OldRequest? then rest
      else [Asked(Normal(rows[0]), Late(rows[1..]))] + rest
  }

  /** How many tool result rows stand at the front. */
  function RunLength(rows: seq<Row>): (n: nat)
    ensures n <= |rows| && forall i | 0 <= i < n :: rows[i].ToolResult?
    ensures n < |rows| ==> !rows[n].ToolResult?
  {
    if rows == [] || !rows[0].ToolResult? then 0 else 1 + RunLength(rows[1..])
  }

  function Results(run: seq<Row>): seq<Keyed<Output>>
    requires forall i | 0 <= i < |run| :: run[i].ToolResult?
  {
    if run == [] then [] else Results(run[..|run| - 1]) + run[|run| - 1].results
  }

  function Decisions(run: seq<Row>): seq<Keyed<Verdict>>
    requires forall i | 0 <= i < |run| :: run[i].ToolResult?
  {
    if run == [] then [] else Decisions(run[..|run| - 1]) + run[|run| - 1].decisions
  }

  /** A run of several rows reads as one, by first position and last value; a single row stays as it
      is. */
  function OneRow(run: seq<Row>): (r: Row)
    requires run != [] && forall i | 0 <= i < |run| :: run[i].ToolResult?
    ensures r.ToolResult?
  {
    if |run| == 1 then run[0] else ToolResult(Collapse(Results(run)), Collapse(Decisions(run)))
  }

  function Merged(rows: seq<Row>): (r: seq<Row>)
    ensures r == [] <==> rows == []
  {
    if rows == [] then []
    else
      var n := RunLength(rows);
      if n == 0 then [rows[0]] + Merged(rows[1..]) else [OneRow(rows[..n])] + Merged(rows[n..])
  }

  // ----- the view is attach, then merge -----

  predicate AnyAssistant(rows: seq<Row>) {
    rows != [] && (rows[0].Assistant? || AnyAssistant(rows[1..]))
  }

  lemma {:induction false} AddRequestsFront(row: Row, rows: seq<Row>, more: seq<Request>)
    ensures AddRequests([row] + rows, more) ==
            if AnyAssistant(rows) then [row] + AddRequests(rows, more) else [Asked(row, more)] + rows
    decreases |rows|
  {
    var all := [row] + rows;
    if rows == [] {
      assert all[..0] == [];
    } else {
      var before, last := rows[..|rows| - 1], rows[|rows| - 1];
      assert all[..|all| - 1] == [row] + before;
      assert rows == before + [last];
      AddRequestsFront(row, before, more);
      AnyAssistantEnd(before, last);
    }
  }

  lemma {:induction false} AnyAssistantEnd(rows: seq<Row>, last: Row)
    ensures AnyAssistant(rows + [last]) <==> AnyAssistant(rows) || last.Assistant?
  {
    if rows != [] {
      assert (rows + [last])[1..] == rows[1..] + [last];
      AnyAssistantEnd(rows[1..], last);
    }
  }

  lemma {:induction false} LateEnd(rows: seq<Row>, row: Row)
    ensures Late(rows + [row]) ==
            if AnyAssistant(rows) || !row.OldRequest? then Late(rows) else Late(rows) + Legacy(row.ids)
  {
    if rows == [] {
      assert [row][1..] == [];
    } else {
      assert (rows + [row])[1..] == rows[1..] + [row];
      LateEnd(rows[1..], row);
    }
  }

  lemma {:induction false} AttachedAssistants(rows: seq<Row>)
    ensures AnyAssistant(Attached(rows)) <==> AnyAssistant(rows)
  {
    if rows != [] {
      AttachedAssistants(rows[1..]);
    }
  }

  lemma {:induction false} AttachedEnd(rows: seq<Row>, row: Row)
    ensures Attached(rows + [row]) ==
            if row.OldRequest? then AddRequests(Attached(rows), Legacy(row.ids)) else Attached(rows) + [Normal(row)]
  {
    if rows == [] {
      assert [row][1..] == [];
      if row.Assistant? {
        assert row.requests + [] == row.requests;
      }
    } else {
      assert (rows + [row])[1..] == rows[1..] + [row];
      AttachedEnd(rows[1..], row);
      LateEnd(rows[1..], row);
      if !rows[0].OldRequest? && row.OldRequest? {
        AttachedAssistants(rows[1..]);
        var head := Normal(rows[0]);
        AddRequestsFront(Asked(head, Late(rows[1..])), Attached(rows[1..]), Legacy(row.ids));
        AskedTwice(head, Late(rows[1..]), Legacy(row.ids));
        if !AnyAssistant(rows[1..]) {
          NoneToAsk(Attached(rows[1..]), Legacy(row.ids));
        }
      }
    }
  }

  lemma AskedTwice(row: Row, a: seq<Request>, b: seq<Request>)
    ensures Asked(Asked(row, a), b) == Asked(row, a + b)
  {
    if row.Assistant? {
      assert row.requests + a + b == row.requests + (a + b);
    }
  }

  lemma {:induction false} NoneToAsk(rows: seq<Row>, more: seq<Request>)
    requires !AnyAssistant(rows)
    ensures AddRequests(rows, more) == rows
    decreases |rows|
  {
    if rows != [] {
      var before, last := rows[..|rows| - 1], rows[|rows| - 1];
      assert rows == before + [last];
      AnyAssistantEnd(before, last);
      NoneToAsk(before, more);
    }
  }

  lemma {:induction false} RunLengthEnd(rows: seq<Row>, row: Row)
    ensures RunLength(rows + [row]) ==
            if RunLength(rows) < |rows| || !row.ToolResult? then RunLength(rows) else |rows| + 1
  {
    if rows == [] {
      assert [row][1..] == [];
    } else {
      assert (rows + [row])[1..] == rows[1..] + [row];
      RunLengthEnd(rows[1..], row);
    }
  }

  lemma OneRowEnd(run: seq<Row>, row: Row)
    requires run != [] && row.ToolResult? && forall i | 0 <= i < |run| :: run[i].ToolResult?
    ensures OneRow(run + [row]) == Fold(OneRow(run), row)
  {
    assert (run + [row])[..|run|] == run;
    if |run| == 1 {
      assert run[..0] == [];
      assert Results(run) == run[0].results;
      assert Decisions(run) == run[0].decisions;
    } else {
      CollapseAbsorbs(Results(run), row.results);
      CollapseAbsorbs(Decisions(run), row.decisions);
    }
  }

  lemma PushFront(row: Row, view: seq<Row>, next: Row)
    requires view != []
    ensures Push([row] + view, next) == [row] + Push(view, next)
  {
    var all := [row] + view;
    assert all[|all| - 1] == view[|view| - 1];
    assert all[..|all| - 1] == [row] + view[..|view| - 1];
  }

  lemma MergedOne(row: Row)
    ensures Merged([row]) == [row]
  {
    assert [row][1..] == [] && [row][..1] == [row];
  }

  lemma {:induction false} MergedEnd(rows: seq<Row>, row: Row)
    ensures Merged(rows + [row]) == Push(Merged(rows), row)
    decreases |rows|
  {
    hide OneRow, Fold;
    var all, n := rows + [row], RunLength(rows);
    RunLengthEnd(rows, row);
    if rows == [] {
      assert all == [row];
      MergedOne(row);
    } else if n == 0 {
      assert all[1..] == rows[1..] + [row];
      MergedEnd(rows[1..], row);
      if rows[1..] != [] {
        hide Push;
        PushFront(rows[0], Merged(rows[1..]), row);
      }
    } else if n < |rows| {
      hide Push;
      assert all[n..] == rows[n..] + [row] && all[..n] == rows[..n];
      MergedEnd(rows[n..], row);
      PushFront(OneRow(rows[..n]), Merged(rows[n..]), row);
    } else {
      MergedWholeRun(rows, row);
    }
  }

  lemma MergedWholeRun(run: seq<Row>, row: Row)
    requires run != [] && RunLength(run) == |run|
    ensures Merged(run + [row]) == Push(Merged(run), row)
  {
    RunLengthEnd(run, row);
    OneRun(run);
    if row.ToolResult? {
      OneRowEnd(run, row);
      OneRun(run + [row]);
      hide OneRow, Merged, Fold, RunLength;
    } else {
      RunThenOther(run, row);
      hide OneRow, Merged, RunLength;
    }
  }

  lemma RunThenOther(run: seq<Row>, row: Row)
    requires run != [] && RunLength(run) == |run| && RunLength(run + [row]) == |run| && !row.ToolResult?
    ensures Merged(run + [row]) == [OneRow(run), row]
  {
    var all, n := run + [row], |run|;
    assert all[..n] == run && all[n..] == [row];
    assert Merged([row]) == [row] by {
      assert [row][1..] == [];
    }
    assert Merged(all) == [OneRow(run)] + Merged([row]) by {
      hide OneRow;
    }
  }

  lemma OneRun(run: seq<Row>)
    requires run != [] && RunLength(run) == |run|
    ensures Merged(run) == [OneRow(run)]
  {
    var n := |run|;
    assert run[..n] == run && run[n..] == [];
    hide OneRow, RunLength;
  }

  lemma AddRequestsPush(view: seq<Row>, row: Row, more: seq<Request>)
    requires !row.Assistant?
    ensures AddRequests(Push(view, row), more) == Push(AddRequests(view, more), row)
  {
    if view != [] {
      var before, last := view[..|view| - 1], view[|view| - 1];
      if row.ToolResult? && last.ToolResult? {
        var folded := before + [Fold(last, row)];
        assert folded[..|folded| - 1] == before;
        var asked := AddRequests(before, more) + [last];
        assert asked[..|asked| - 1] == AddRequests(before, more);
      } else {
        assert (view + [row])[..|view|] == view;
      }
    } else {
      assert [row][..0] == [];
    }
  }

  lemma {:induction false} MergedAsked(rows: seq<Row>, more: seq<Request>)
    ensures Merged(AddRequests(rows, more)) == AddRequests(Merged(rows), more)
    decreases |rows|
  {
    if rows != [] {
      var before, last := rows[..|rows| - 1], rows[|rows| - 1];
      assert rows == before + [last];
      MergedEnd(before, last);
      if last.Assistant? {
        MergedEnd(before, Asked(last, more));
        assert (Merged(before) + [last])[..|Merged(before)|] == Merged(before);
      } else {
        MergedAsked(before, more);
        MergedEnd(AddRequests(before, more), last);
        AddRequestsPush(Merged(before), last, more);
      }
    }
  }

  /** The one pass is the two: attach the requests of 0.1.0, then merge each maximal run of tool result
      rows. */
  lemma {:induction false} ViewIsAttachThenMerge(rows: seq<Row>)
    ensures View(rows) == Merged(Attached(rows))
    decreases |rows|
  {
    if rows != [] {
      var before, last := rows[..|rows| - 1], rows[|rows| - 1];
      assert rows == before + [last];
      ViewIsAttachThenMerge(before);
      AttachedEnd(before, last);
      if last.OldRequest? {
        MergedAsked(Attached(before), Legacy(last.ids));
      } else {
        MergedEnd(Attached(before), Normal(last));
      }
    }
  }
}

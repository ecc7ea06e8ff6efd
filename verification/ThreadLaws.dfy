/** What a reader of the view may rely on. */
module ThreadLaws {
  import opened Dicts
  import opened ThreadRows
  import opened Wrappers

  lemma FoldIsAssociative(a: Row, b: Row, c: Row)
    requires a.ToolResult? && b.ToolResult? && c.ToolResult?
    ensures Fold(Fold(a, b), c) == Fold(a, Fold(b, c))
  {
    FoldParts(a.results, b.results, c.results);
    FoldParts(a.decisions, b.decisions, c.decisions);
  }

  lemma FoldParts<V>(a: seq<Keyed<V>>, b: seq<Keyed<V>>, c: seq<Keyed<V>>)
    ensures Collapse(Collapse(a + b) + c) == Collapse(a + Collapse(b + c))
  {
    hide Collapse, Keys, Distinct;
    CollapseAbsorbs(a + b, c);
    CollapseAbsorbs(a, b + c);
    Associates(a, b, c);
  }

  lemma Associates<T>(a: seq<T>, b: seq<T>, c: seq<T>)
    ensures a + b + c == a + (b + c)
  {
  }

  // ----- the shape of a view -----

  predicate InShape(row: Row) {
    !(row.OldResult? || row.OldRequest? || row.OldDecision?) && (row.Assistant? ==> row.toolNames.None?)
  }

  /** Rows in today's shape, and never two tool result rows side by side. */
  predicate Shown(view: seq<Row>) {
    (forall i | 0 <= i < |view| :: InShape(view[i]))
    && forall i | 0 < i < |view| :: !(view[i - 1].ToolResult? && view[i].ToolResult?)
  }

  lemma {:induction false} ViewIsShown(rows: seq<Row>)
    ensures Shown(View(rows))
    decreases |rows|
  {
    if rows != [] {
      var before, last := rows[..|rows| - 1], rows[|rows| - 1];
      ViewIsShown(before);
      if last.OldRequest? {
        AskedIsShown(View(before), Legacy(last.ids));
      }
    }
  }

  lemma {:induction false} AskedIsShown(view: seq<Row>, more: seq<Request>)
    requires Shown(view)
    ensures Shown(AddRequests(view, more))
    ensures |view| > 0 ==> AddRequests(view, more)[|view| - 1].ToolResult? == view[|view| - 1].ToolResult?
    decreases |view|
  {
    if view != [] && !view[|view| - 1].Assistant? {
      AskedIsShown(view[..|view| - 1], more);
    }
  }

  lemma {:induction false} ShownIsItsOwnView(view: seq<Row>)
    requires Shown(view)
    ensures View(view) == view
    decreases |view|
  {
    if view != [] {
      var before, last := view[..|view| - 1], view[|view| - 1];
      assert Shown(before) && InShape(last);
      assert Step(before, last) == view by {
        assert Normal(last) == last;
      }
      ShownIsItsOwnView(before);
      hide Step, Shown;
    }
  }

  /** A view read as a thread is itself. */
  lemma ViewTwice(rows: seq<Row>)
    ensures View(View(rows)) == View(rows)
  {
    ViewIsShown(rows);
    ShownIsItsOwnView(View(rows));
  }

  // ----- appending -----

  /** How a view may grow while rows are appended: every row but the last stays, and so does the last
      unless it is a tool result row, which only gains keys. */
  predicate Grows(before: seq<Row>, after: seq<Row>) {
    |before| <= |after|
    && (forall i | 0 <= i < |before| - 1 :: after[i] == before[i])
    && (before != [] ==>
          var last := before[|before| - 1];
          var now := after[|before| - 1];
          now == last
          || (&& last.ToolResult?
              && now.ToolResult?
              && Keys(last.results) <= Keys(now.results)
              && Keys(last.decisions) <= Keys(now.decisions)))
  }

  lemma {:induction false} KeysConcat<V>(a: seq<Keyed<V>>, b: seq<Keyed<V>>)
    ensures Keys(a + b) == Keys(a) + Keys(b)
  {
    if a == [] {
      assert a + b == b;
    } else {
      assert (a + b)[1..] == a[1..] + b;
      KeysConcat(a[1..], b);
    }
  }

  lemma FoldKeys(a: Row, b: Row)
    requires a.ToolResult? && b.ToolResult?
    ensures Keys(Fold(a, b).results) == Keys(a.results) + Keys(b.results)
    ensures Keys(Fold(a, b).decisions) == Keys(a.decisions) + Keys(b.decisions)
  {
    KeysConcat(a.results, b.results);
    KeysConcat(a.decisions, b.decisions);
  }

  lemma PushGrows(view: seq<Row>, row: Row)
    ensures Grows(view, Push(view, row))
  {
    if row.ToolResult? && view != [] && view[|view| - 1].ToolResult? {
      FoldKeys(view[|view| - 1], row);
    }
  }

  lemma GrowsFurther(a: seq<Row>, b: seq<Row>, c: seq<Row>)
    requires Grows(a, b) && Grows(b, c)
    ensures Grows(a, c)
  {
  }

  /** Appending rows in today's format changes at most the last row of the view. */
  lemma {:induction false} AppendingGrows(rows: seq<Row>, more: seq<Row>)
    requires forall row | row in more :: !row.OldRequest?
    ensures Grows(View(rows), View(rows + more))
    decreases |more|
  {
    if more == [] {
      assert rows + more == rows;
    } else {
      var before, last := more[..|more| - 1], more[|more| - 1];
      assert rows + more == rows + before + [last];
      AppendingGrows(rows, before);
      ViewEnd(rows + before, last);
      PushGrows(View(rows + before), Normal(last));
      GrowsFurther(View(rows), View(rows + before), View(rows + more));
    }
  }

  predicate LatestAssistant(view: seq<Row>, i: nat)
    requires i < |view|
  {
    view[i].Assistant? && forall j | i < j < |view| :: !view[j].Assistant?
  }

  /** An old request, the one row that reaches back, only adds requests to one assistant row. */
  lemma {:induction false} OldRequestAsksOnce(view: seq<Row>, more: seq<Request>, i: nat)
    requires i < |view|
    ensures AddRequests(view, more)[i] == if LatestAssistant(view, i) then Asked(view[i], more) else view[i]
    decreases |view|
  {
    var before, last := view[..|view| - 1], view[|view| - 1];
    if !last.Assistant? && i < |before| {
      OldRequestAsksOnce(before, more, i);
      assert forall j | 0 <= j < |before| :: before[j] == view[j];
      assert LatestAssistant(before, i) == LatestAssistant(view, i);
    }
  }

  // ----- what a stored row reads as -----

  /** The tool result row a view ends with, or an empty one. */
  function Ended(view: seq<Row>): (r: Row)
    ensures r.ToolResult?
  {
    if view != [] && view[|view| - 1].ToolResult? then view[|view| - 1] else ToolResult([], [])
  }

  lemma {:induction false} LastOfConcat<V>(a: seq<Keyed<V>>, b: seq<Keyed<V>>, key: string)
    ensures LastValue(a + b, key) == if LastValue(b, key).Some? then LastValue(b, key) else LastValue(a, key)
    decreases |b|
  {
    if b == [] {
      assert a + b == a;
    } else {
      assert (a + b)[..|a + b| - 1] == a + b[..|b| - 1];
      LastOfConcat(a, b[..|b| - 1], key);
    }
  }

  lemma {:induction false} LastOfCollapsed<V>(s: seq<Keyed<V>>, key: string)
    ensures LastValue(Collapse(s), key) == LastValue(s, key)
  {
    DistinctStays(Collapse(s));
    CollapseIsFirstPlaceLastValue(s, key);
    CollapseIsFirstPlaceLastValue(Collapse(s), key);
  }

  /** Under every id the last row says what the new row says, or else what it said before. */
  predicate SaysLast(before: Row, row: Row, now: Row, id: string)
    requires before.ToolResult? && row.ToolResult? && now.ToolResult?
  {
    && LastValue(now.results, id) ==
       (if LastValue(row.results, id).Some? then LastValue(row.results, id) else LastValue(before.results, id))
    && LastValue(now.decisions, id) ==
       (if LastValue(row.decisions, id).Some? then LastValue(row.decisions, id) else LastValue(before.decisions, id))
  }

  /** The view ends in a tool result row that says what it said and what `row` says; nothing else of it
      changed. */
  predicate Lands(view: seq<Row>, row: Row, now: seq<Row>, id: string)
    requires row.ToolResult?
  {
    && now != [] && now[|now| - 1].ToolResult?
    && SaysLast(Ended(view), row, now[|now| - 1], id)
    && now[..|now| - 1] == if view != [] && view[|view| - 1].ToolResult? then view[..|view| - 1] else view
  }

  lemma {:induction false} ResultRowReads(view: seq<Row>, row: Row, id: string)
    requires row.ToolResult?
    ensures Lands(view, row, Push(view, row), id)
  {
    var last := Ended(view);
    if view != [] && view[|view| - 1].ToolResult? {
      LastOfCollapsed(last.results + row.results, id);
      LastOfCollapsed(last.decisions + row.decisions, id);
      LastOfConcat(last.results, row.results, id);
      LastOfConcat(last.decisions, row.decisions, id);
    }
    hide Collapse;
  }

  /** How a stored row of any format reads: a result of 0.1.0 as the result of its call, a decision as
      the decision on its approval, a request as an approval under the call's own id on the latest
      assistant row; today's rows as they are, without the stored offer. */
  lemma {:induction false} RowReads(rows: seq<Row>, row: Row, id: string)
    ensures var view, now := View(rows), View(rows + [row]);
            match row
            case Assistant(text, calls, requests, _) => now == view + [Assistant(text, calls, requests, None)]
            case OldRequest(ids) =>
              && |now| == |view|
              && forall i | 0 <= i < |view| ::
                   if LatestAssistant(view, i) then
                     && now[i].Assistant?
                     && now[i].text == view[i].text && now[i].calls == view[i].calls
                     && |now[i].requests| == |view[i].requests| + |ids|
                     && view[i].requests <= now[i].requests
                     && forall k | 0 <= k < |ids| :: now[i].requests[|view[i].requests| + k] == Request(ids[k], ids[k])
                   else now[i] == view[i]
            case User(_) => now == view + [row]
            case Other(_, _) => now == view + [row]
            case OldResult(callId, tool, text) =>
              Lands(view, ToolResult([Keyed(callId, Output(tool, "{}", text))], []), now, id)
            case OldDecision(approvalId, verdict) => Lands(view, ToolResult([], [Keyed(approvalId, verdict)]), now, id)
            case ToolResult(_, _) => Lands(view, row, now, id)
  {
    var view := View(rows);
    ViewEnd(rows, row);
    hide View;
    match row
    case OldRequest(ids) =>
      forall i | 0 <= i < |view|
        ensures AddRequests(view, Legacy(ids))[i] ==
                if LatestAssistant(view, i) then Asked(view[i], Legacy(ids)) else view[i]
      {
        OldRequestAsksOnce(view, Legacy(ids), i);
      }
      hide AddRequests;
    case User(_) =>
    case Other(_, _) =>
    case Assistant(_, _, _, _) =>
    case _ =>
      ResultRowReads(view, Normal(row), id);
      hide Push, Lands;
  }
}

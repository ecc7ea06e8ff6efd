/** The index across crashes: every prefix of the puts of every call leaves a disk that recovery
    turns into exactly the old or the new index. */
module IndexRecovery {
  import opened Wrappers
  import opened AddressIndex

  function Clean(rows: seq<Row>): Index {
    Index(rows, None, false, false)
  }

  /** The index after each put of a recovery, the state before the first put included. */
  function RecoverStages(x: Index): (r: seq<Index>)
    ensures r != [] && r[0] == x
  {
    if x.journal.None? then [x]
    else if !x.paged then [x, x.(paged := true), x.(paged := true, entered := true), Clean(Settled(x))]
    else [x, x.(entered := true), Clean(Settled(x))]
  }

  function WithResource(rows: seq<Row>, a: Address, r: Resource): seq<Row> {
    var k := Find(rows, a);
    if k == |rows| then rows + [Row(a, [r])]
    else if r in rows[k].resources then rows
    else rows[k := Row(a, rows[k].resources + [r])]
  }

  predicate Refused(rows: seq<Row>, a: Address, limit: Option<nat>) {
    Find(rows, a) == |rows| && limit.Some? && |rows| >= limit.value
  }

  /** The index after each put of a record on a clean index. */
  function ExtendStages(rows: seq<Row>, a: Address, r: Resource, limit: Option<nat>): (s: seq<Index>)
    ensures s != [] && s[0] == Clean(rows)
  {
    if Refused(rows, a, limit) || WithResource(rows, a, r) == rows then [Clean(rows)]
    else if Find(rows, a) < |rows| then [Clean(rows), Clean(WithResource(rows, a, r))]
    else [Clean(rows)] + RecoverStages(Index(rows, Some(Row(a, [r])), false, false))
  }

  function RecordStages(x: Index, a: Address, r: Resource, limit: Option<nat>): (s: seq<Index>)
    ensures s != [] && s[0] == x
  {
    RecoverStages(x) + ExtendStages(Settled(x), a, r, limit)[1..]
  }

  /** After each put the disk holds the stage listed for it. */
  ghost predicate Traces(d: Disk, root: string, puts: seq<Put>, stages: seq<Index>) {
    |stages| == |puts| + 1 && forall k | 0 <= k <= |puts| :: Holds(Apply(d, puts[..k]), root, stages[k])
  }

  lemma {:induction false} ApplyConcat(d: Disk, first: seq<Put>, second: seq<Put>)
    ensures Apply(d, first + second) == Apply(Apply(d, first), second)
    decreases |first|
  {
    if first == [] {
      assert first + second == second;
    } else {
      assert (first + second)[1..] == first[1..] + second;
      ApplyConcat(d[first[0].key := first[0].value], first[1..], second);
    }
  }

  lemma ApplySnoc(d: Disk, puts: seq<Put>, put: Put)
    ensures Apply(d, puts + [put]) == Apply(d, puts)[put.key := put.value]
  {
    ApplyConcat(d, puts, [put]);
    var e := Apply(d, puts);
    assert Apply(e, [put]) == e[put.key := put.value];
  }

  lemma TracesConcat(d: Disk, root: string, p: seq<Put>, xs: seq<Index>, q: seq<Put>, ys: seq<Index>)
    requires Traces(d, root, p, xs) && Traces(Apply(d, p), root, q, ys)
    ensures Traces(d, root, p + q, xs + ys[1..])
  {
    hide Holds, Apply;
    var all, stages := p + q, xs + ys[1..];
    forall k | 0 <= k <= |all|
      ensures Holds(Apply(d, all[..k]), root, stages[k])
    {
      if k <= |p| {
        assert all[..k] == p[..k];
      } else {
        assert all[..k] == p + q[..k - |p|];
        assert stages[k] == ys[k - |p|];
        ApplyConcat(d, p, q[..k - |p|]);
      }
    }
  }

  lemma TracesOne(d: Disk, root: string, put: Put, x: Index, y: Index)
    requires Holds(d, root, x) && Holds(d[put.key := put.value], root, y)
    ensures Traces(d, root, [put], [x, y])
  {
    assert [put][..0] == [] && [put][..1] == [put];
    assert Apply(d, [put]) == d[put.key := put.value];
  }

  // ----- the stages are what the calls write -----

  function EntryPut(root: string, x: Index): Put
    requires x.journal.Some?
  {
    var row := x.journal.value;
    Put(EntryKey(root, Digest(row.address)), EntryValue(Entry(row.address, row.resources, |x.rows|)))
  }

  function CommitPut(root: string, x: Index): Put {
    Put(HeadKey(root), HeadValue(HeadOf(Clean(Settled(x)))))
  }

  /** With its page written, a journalled append takes two more puts. */
  lemma PagedRecovery(d: Disk, root: string, x: Index)
    requires Holds(d, root, x) && x.paged
    ensures Recover(d, root, HeadOf(x)) ==
            Ok(Recovery([EntryPut(root, x), CommitPut(root, x)], HeadOf(Clean(Settled(x)))))
  {
    var row, n := x.journal.value, |x.rows| / PAGE_SIZE;
    SliceAppend(x.rows, row, n);
    assert PageIds(d, root, n) == Ok(Slice(x.rows, n) + [Digest(row.address)]);
    assert HeadOf(Clean(Settled(x))) == Head(|x.rows| + 1, n + 1, None);
    var puts := [EntryPut(root, x), CommitPut(root, x)];
    assert [] + puts == puts;
    hide Slice, PageIds, Holds;
  }

  lemma EntryThenCommit(d: Disk, root: string, x: Index, head: Head)
    requires Holds(d, root, x) && x.paged && head == HeadOf(x)
    ensures var r := Recover(d, root, head);
            r.Ok? && r.value.head == HeadOf(Clean(Settled(x))) &&
            Traces(d, root, r.value.puts, [x, x.(entered := true), Clean(Settled(x))])
  {
    PagedRecovery(d, root, x);
    WriteEntry(d, root, x);
    var y, first, second := x.(entered := true), EntryPut(root, x), CommitPut(root, x);
    var d' := d[first.key := first.value];
    TracesOne(d, root, first, x, y);
    Commit(d', root, y);
    TracesOne(d', root, second, y, Clean(Settled(x)));
    assert Apply(d, [first]) == d';
    hide Holds, Recover, Traces, Apply, HeadOf;
    TracesConcat(d, root, [first], [x, y], [second], [y, Clean(Settled(x))]);
    assert [first] + [second] == [first, second];
    assert [x, y] + [y, Clean(Settled(x))][1..] == [x, y, Clean(Settled(x))];
  }

  lemma RecoverTraces(d: Disk, root: string, x: Index)
    requires Holds(d, root, x)
    ensures var r := Recover(d, root, HeadOf(x));
            r.Ok? && r.value.head == HeadOf(Clean(Settled(x))) && Traces(d, root, r.value.puts, RecoverStages(x))
  {
    if x.journal.None? {
      assert Recover(d, root, HeadOf(x)).value.puts[..0] == [];
    } else if x.paged {
      EntryThenCommit(d, root, x, HeadOf(x));
    } else {
      PageThenRest(d, root, x);
    }
  }

  function PagePut(root: string, x: Index): Put
    requires x.journal.Some?
  {
    var n := |x.rows| / PAGE_SIZE;
    Put(PageKey(root, n), PageValue(Slice(x.rows, n) + [Digest(x.journal.value.address)]))
  }

  /** A recovery that still has to write the page goes on as one that finds it written. */
  lemma PageComesFirst(d: Disk, root: string, x: Index)
    requires Holds(d, root, x) && x.journal.Some? && !x.paged
    ensures var put := PagePut(root, x);
            var d' := d[put.key := put.value];
            var rest := Recover(d', root, HeadOf(x));
            && Holds(d', root, x.(paged := true)) && Apply(d, [put]) == d'
            && rest.Ok? && Recover(d, root, HeadOf(x)) == Ok(Recovery([put] + rest.value.puts, rest.value.head))
  {
    var n := |x.rows| / PAGE_SIZE;
    WritePage(d, root, x);
    SliceAppend(x.rows, x.journal.value, n);
    var put := PagePut(root, x);
    var d' := d[put.key := put.value];
    assert PageIds(d', root, n) == Ok(Slice(InPages(x.(paged := true)), n));
    assert HeadOf(x).count % PAGE_SIZE == |Slice(x.rows, n)|;
    var rest := Recover(d', root, HeadOf(x)).value;
    assert Recover(d, root, HeadOf(x)).value.puts == [put] + rest.puts;
  }

  lemma PageThenRest(d: Disk, root: string, x: Index)
    requires Holds(d, root, x) && x.journal.Some? && !x.paged
    ensures var r := Recover(d, root, HeadOf(x));
            r.Ok? && r.value.head == HeadOf(Clean(Settled(x))) && Traces(d, root, r.value.puts, RecoverStages(x))
  {
    var y, put := x.(paged := true), PagePut(root, x);
    var d' := d[put.key := put.value];
    PageComesFirst(d, root, x);
    TracesOne(d, root, put, x, y);
    EntryThenCommit(d', root, y, HeadOf(y));
    hide Holds, Recover, Traces;
    var rest := Recover(d', root, HeadOf(x)).value.puts;
    TracesConcat(d, root, [put], [x, y], rest, [y, y.(entered := true), Clean(Settled(y))]);
    assert [x, y] + [y, y.(entered := true), Clean(Settled(y))][1..] == RecoverStages(x);
  }

  function PreparePut(root: string, rows: seq<Row>, row: Row): Put {
    Put(HeadKey(root), HeadValue(HeadOf(Clean(rows).(journal := Some(row)))))
  }

  lemma AppendIs(d: Disk, root: string, rows: seq<Row>, a: Address, r: Resource, limit: Option<nat>)
    requires Find(rows, a) == |rows| && !Refused(rows, a, limit)
    ensures var row := Row(a, [r]);
            var first, y := PreparePut(root, rows, row), Clean(rows).(journal := Some(row));
            var rest := Recover(Apply(d, [first]), root, HeadOf(y));
            Append(d, root, HeadOf(Clean(rows)), a, r, limit) ==
            if rest.Err? then Call([first], Err(rest.error)) else Call([first] + rest.value.puts, Ok(()))
  {
    hide Recover, Apply, PageCount;
  }

  lemma AppendTraces(d: Disk, root: string, rows: seq<Row>, a: Address, r: Resource, limit: Option<nat>)
    requires Holds(d, root, Clean(rows)) && Find(rows, a) == |rows| && !Refused(rows, a, limit)
    ensures var c := Append(d, root, HeadOf(Clean(rows)), a, r, limit);
            c.reply.Ok? && Traces(d, root, c.puts, ExtendStages(rows, a, r, limit))
  {
    var row := Row(a, [r]);
    var x := Clean(rows);
    var y, first := x.(journal := Some(row)), PreparePut(root, rows, row);
    assert Settled(y) == rows + [row];
    Prepare(d, root, x, row);
    TracesOne(d, root, first, x, y);
    assert Apply(d, [first]) == d[first.key := first.value];
    hide Holds, Recover, Traces, Append, HeadOf, Apply, PreparePut;
    RecoverTraces(Apply(d, [first]), root, y);
    AppendIs(d, root, rows, a, r, limit);
    var rest := Recover(Apply(d, [first]), root, HeadOf(y)).value.puts;
    TracesConcat(d, root, [first], [x, y], rest, RecoverStages(y));
    assert [x, y] + RecoverStages(y)[1..] == [x] + RecoverStages(y);
  }

  lemma ExtendTraces(d: Disk, root: string, rows: seq<Row>, a: Address, r: Resource, limit: Option<nat>)
    requires Holds(d, root, Clean(rows)) && Find(rows, a) < |rows|
    ensures Lookup(d, EntryKey(root, Digest(a))) == EntryOf(rows, a)
    ensures var c := Extend(d, root, HeadOf(Clean(rows)), a, r, EntryOf(rows, a).value);
            c.reply.Ok? && Traces(d, root, c.puts, ExtendStages(rows, a, r, limit))
  {
    var k := Find(rows, a);
    SliceAt(rows, k);
    assert PageIds(d, root, k / PAGE_SIZE) == Ok(Slice(rows, k / PAGE_SIZE));
    if r in rows[k].resources {
      var c := Extend(d, root, HeadOf(Clean(rows)), a, r, EntryOf(rows, a).value);
      assert c.puts[..0] == [];
    } else {
      var row := Row(a, rows[k].resources + [r]);
      AddResource(d, root, Clean(rows), k, row);
      var put := Put(EntryKey(root, Digest(a)), EntryValue(Entry(a, row.resources, k)));
      TracesOne(d, root, put, Clean(rows), Clean(rows[k := row]));
      assert rows[k := row][k] != rows[k];
    }
  }

  lemma RecordTraces(d: Disk, root: string, x: Index, a: Address, r: Resource, limit: Option<nat>)
    requires Holds(d, root, x)
    ensures var c := RecordCall(d, root, a, r, limit);
            && Traces(d, root, c.puts, RecordStages(x, a, r, limit))
            && (if Refused(Settled(x), a, limit) then c.reply == Err(LimitExceeded) else c.reply == Ok(()))
  {
    RecoverTraces(d, root, x);
    var recovery := Recover(d, root, HeadOf(x)).value;
    var rows := Settled(x);
    var d' := Apply(d, recovery.puts);
    RecoveredHolds(d, root, x);
    hide Holds, Recover, Append, Extend, Traces, Refused, RecoverStages, ExtendStages, OnClean, RecordCall;
    RecordOnClean(d', root, rows, a, r, limit);
    RecordIs(d, root, x, a, r, limit);
    var call := OnClean(d', root, rows, a, r, limit);
    TracesConcat(d, root, recovery.puts, RecoverStages(x), call.puts, ExtendStages(rows, a, r, limit));
  }

  lemma RecoveredHolds(d: Disk, root: string, x: Index)
    requires Holds(d, root, x)
    ensures var r := Recover(d, root, HeadOf(x));
            r.Ok? && r.value.head == HeadOf(Clean(Settled(x))) && Holds(Apply(d, r.value.puts), root, Clean(Settled(x)))
  {
    RecoverTraces(d, root, x);
    var puts := Recover(d, root, HeadOf(x)).value.puts;
    assert puts[..|puts|] == puts;
    assert RecoverStages(x)[|puts|] == Clean(Settled(x));
    hide Holds, Recover, Apply;
  }

  lemma RecordIs(d: Disk, root: string, x: Index, a: Address, r: Resource, limit: Option<nat>)
    requires Holds(d, root, x)
    ensures var recovery := Recover(d, root, HeadOf(x));
            recovery.Ok? &&
            var call := OnClean(Apply(d, recovery.value.puts), root, Settled(x), a, r, limit);
            RecordCall(d, root, a, r, limit) == Call(recovery.value.puts + call.puts, call.reply)
  {
    RecoveredHolds(d, root, x);
    assert ReadHead(d, root) == Ok(HeadOf(x));
    hide Holds, Recover, Append, Extend, Apply, HeadOf, ReadHead;
  }

  /** The rest of a record, once the index is clean. */
  function OnClean(d: Disk, root: string, rows: seq<Row>, a: Address, r: Resource, limit: Option<nat>): Call {
    match Lookup(d, EntryKey(root, Digest(a)))
    case None => Append(d, root, HeadOf(Clean(rows)), a, r, limit)
    case Some(v) => Extend(d, root, HeadOf(Clean(rows)), a, r, v)
  }

  lemma RecordOnClean(d: Disk, root: string, rows: seq<Row>, a: Address, r: Resource, limit: Option<nat>)
    requires Holds(d, root, Clean(rows))
    ensures var c := OnClean(d, root, rows, a, r, limit);
            && Traces(d, root, c.puts, ExtendStages(rows, a, r, limit))
            && (if Refused(rows, a, limit) then c.reply == Err(LimitExceeded) else c.reply == Ok(()))
  {
    assert Lookup(d, EntryKey(root, Digest(a))) == EntryOf(rows, a);
    if Find(rows, a) < |rows| {
      ExtendTraces(d, root, rows, a, r, limit);
    } else if Refused(rows, a, limit) {
      assert OnClean(d, root, rows, a, r, limit).puts[..0] == [];
    } else {
      AppendTraces(d, root, rows, a, r, limit);
    }
  }

  // ----- crashes -----

  /** One call, cut off after `kept` of its puts. */
  datatype Cut = CutRecord(address: Address, resource: Resource, limit: Option<nat>, kept: nat) | CutRecover(kept: nat)

  function CallOf(d: Disk, root: string, c: Cut): Call {
    match c
    case CutRecord(a, r, limit, _) => RecordCall(d, root, a, r, limit)
    case CutRecover(_) => RecoverCall(d, root)
  }

  function StagesOf(x: Index, c: Cut): (s: seq<Index>)
    ensures s != [] && s[0] == x
  {
    match c
    case CutRecord(a, r, limit, _) => RecordStages(x, a, r, limit)
    case CutRecover(_) => RecoverStages(x)
  }

  function Kept(c: Cut, puts: seq<Put>): seq<Put> {
    if c.kept < |puts| then puts[..c.kept] else puts
  }

  function AfterCut(d: Disk, root: string, c: Cut): Disk {
    Apply(d, Kept(c, CallOf(d, root, c).puts))
  }

  /** The index a call leaves when nothing cuts it off. */
  function Target(rows: seq<Row>, c: Cut): seq<Row> {
    match c
    case CutRecord(a, r, limit, _) => if Refused(rows, a, limit) then rows else WithResource(rows, a, r)
    case CutRecover(_) => rows
  }

  lemma CallTraces(d: Disk, root: string, x: Index, c: Cut)
    requires Holds(d, root, x)
    ensures Traces(d, root, CallOf(d, root, c).puts, StagesOf(x, c))
    ensures CallOf(d, root, c).reply ==
            if c.CutRecord? && Refused(Settled(x), c.address, c.limit) then Err(LimitExceeded) else Ok(())
  {
    if c.CutRecord? {
      RecordTraces(d, root, x, c.address, c.resource, c.limit);
    } else {
      RecoverTraces(d, root, x);
    }
  }

  lemma StagesEnd(x: Index, c: Cut, k: nat)
    requires Shaped(x) && k < |StagesOf(x, c)|
    ensures Settled(StagesOf(x, c)[k]) == if k < |RecoverStages(x)| then Settled(x) else Target(Settled(x), c)
    ensures k == |StagesOf(x, c)| - 1 ==> StagesOf(x, c)[k] == Clean(Target(Settled(x), c))
    ensures k == |StagesOf(x, c)| - 1 && k < |RecoverStages(x)| ==> Target(Settled(x), c) == Settled(x)
  {
    var first := RecoverStages(x);
    assert first[|first| - 1] == Clean(Settled(x));
    if c.CutRecord? {
      ExtendStagesEnd(Settled(x), c.address, c.resource, c.limit);
      var rest := ExtendStages(Settled(x), c.address, c.resource, c.limit);
      if k >= |first| {
        assert StagesOf(x, c)[k] == rest[k - |first| + 1];
      }
    }
  }

  lemma ExtendStagesEnd(rows: seq<Row>, a: Address, r: Resource, limit: Option<nat>)
    ensures var s := ExtendStages(rows, a, r, limit);
            var target := if Refused(rows, a, limit) then rows else WithResource(rows, a, r);
            && s[|s| - 1] == Clean(target)
            && (forall k | 1 <= k < |s| :: Settled(s[k]) == target)
  {
    if Find(rows, a) == |rows| {
      assert |WithResource(rows, a, r)| == |rows| + 1;
    }
  }

  /** A call cut off anywhere leaves a disk that stands for the old index or for the new one: the
      old up to the put that journals or extends, the new from it on. */
  lemma CrashIsAtomic(d: Disk, root: string, x: Index, c: Cut) returns (y: Index)
    requires Holds(d, root, x)
    ensures Holds(AfterCut(d, root, c), root, y)
    ensures Settled(y) == if c.kept < |RecoverStages(x)| then Settled(x) else Target(Settled(x), c)
    ensures c.kept >= |CallOf(d, root, c).puts| ==> y == Clean(Target(Settled(x), c))
  {
    hide CallOf, StagesOf, RecoverStages, Target;
    var puts := CallOf(d, root, c).puts;
    CallTraces(d, root, x, c);
    var k := if c.kept < |puts| then c.kept else |puts|;
    TraceAt(d, root, puts, StagesOf(x, c), k);
    assert Shaped(x);
    hide Holds, Traces;
    y := StagesOf(x, c)[k];
    StagesEnd(x, c, k);
    assert puts[..|puts|] == puts;
  }

  lemma TraceAt(d: Disk, root: string, puts: seq<Put>, stages: seq<Index>, k: nat)
    requires Traces(d, root, puts, stages) && k <= |puts|
    ensures |stages| == |puts| + 1 && Holds(Apply(d, puts[..k]), root, stages[k])
  {
  }

  function AfterCuts(d: Disk, root: string, cuts: seq<Cut>): Disk
    decreases |cuts|
  {
    if cuts == [] then d else AfterCuts(AfterCut(d, root, cuts[0]), root, cuts[1..])
  }

  /** A store that has never held this root. */
  predicate Untouched(d: Disk, root: string) {
    forall key | key in d :: key.root != root
  }

  lemma EmptyHolds(d: Disk, root: string)
    requires Untouched(d, root)
    ensures Holds(d, root, Clean([]))
  {
  }

  lemma {:induction false} CutsHold(d: Disk, root: string, x: Index, cuts: seq<Cut>) returns (y: Index)
    requires Holds(d, root, x)
    ensures Holds(AfterCuts(d, root, cuts), root, y)
    decreases |cuts|
  {
    if cuts == [] {
      y := x;
    } else {
      var z := CrashIsAtomic(d, root, x, cuts[0]);
      y := CutsHold(AfterCut(d, root, cuts[0]), root, z, cuts[1..]);
    }
  }

  /** From a fresh root, through any calls cut off anywhere, the disk stands for an index and no
      call ever answers an integrity error. */
  lemma IntegrityErrorsAreUnreachable(d: Disk, root: string, cuts: seq<Cut>, c: Cut) returns (y: Index)
    requires Untouched(d, root)
    ensures Holds(AfterCuts(d, root, cuts), root, y)
    ensures CallOf(AfterCuts(d, root, cuts), root, c).reply ==
            if c.CutRecord? && Refused(Settled(y), c.address, c.limit) then Err(LimitExceeded) else Ok(())
  {
    EmptyHolds(d, root);
    y := CutsHold(d, root, Clean([]), cuts);
    CallTraces(AfterCuts(d, root, cuts), root, y, c);
  }

  /** Recovery, itself interrupted any number of times, ends in the index the disk stood for; and
      once it has ended it has nothing left to put. */
  lemma {:induction false} InterruptedRecovery(d: Disk, root: string, x: Index, cuts: seq<Cut>) returns (y: Index)
    requires Holds(d, root, x) && forall i | 0 <= i < |cuts| :: cuts[i].CutRecover?
    ensures Holds(AfterCuts(d, root, cuts), root, y) && Settled(y) == Settled(x)
    ensures var e := AfterCuts(d, root, cuts);
            var done := Apply(e, RecoverCall(e, root).puts);
            Holds(done, root, Clean(Settled(x))) && RecoverCall(done, root) == Call([], Ok(()))
    decreases |cuts|
  {
    if cuts == [] {
      y := x;
      var all := CutRecover(|RecoverCall(d, root).puts|);
      var z := CrashIsAtomic(d, root, x, all);
    } else {
      var z := CrashIsAtomic(d, root, x, cuts[0]);
      y := InterruptedRecovery(AfterCut(d, root, cuts[0]), root, z, cuts[1..]);
    }
  }
}

/** Lock-free paging: a reader whose every get may be separated from the next by puts, crashes and
    recoveries of writers. */
module IndexPaging {
  import opened Wrappers
  import opened AddressIndex
  import opened IndexRecovery

  /** Rows are only appended, and a row only gains resources. */
  predicate Grown(before: seq<Row>, after: seq<Row>) {
    |before| <= |after|
    && forall k | 0 <= k < |before| ::
         after[k].address == before[k].address && before[k].resources <= after[k].resources
  }

  predicate Rising(stages: seq<Index>) {
    forall i, j | 0 <= i <= j < |stages| ::
      Grown(stages[i].rows, stages[j].rows) && |Settled(stages[i])| <= |Settled(stages[j])|
  }

  lemma GrownFurther(a: seq<Row>, b: seq<Row>, c: seq<Row>)
    requires Grown(a, b) && Grown(b, c)
    ensures Grown(a, c)
  {
  }

  lemma RecoveryRises(x: Index)
    requires Shaped(x)
    ensures Rising(RecoverStages(x))
    ensures RecoverStages(x)[|RecoverStages(x)| - 1] == Clean(Settled(x))
  {
  }

  lemma RisingConcat(xs: seq<Index>, ys: seq<Index>)
    requires xs != [] && ys != [] && Rising(xs) && Rising(ys) && xs[|xs| - 1] == ys[0]
    ensures Rising(xs + ys[1..])
  {
    var all := xs + ys[1..];
    forall i, j | 0 <= i <= j < |all|
      ensures Grown(all[i].rows, all[j].rows) && |Settled(all[i])| <= |Settled(all[j])|
    {
      if i < |xs| <= j {
        assert all[j] == ys[j - |xs| + 1];
        GrownFurther(xs[i].rows, ys[0].rows, ys[j - |xs| + 1].rows);
      }
    }
  }

  lemma AppendingRises(rows: seq<Row>, a: Address, r: Resource)
    ensures Rising([Clean(rows)] + RecoverStages(Index(rows, Some(Row(a, [r])), false, false)))
  {
    var x, y := Clean(rows), Index(rows, Some(Row(a, [r])), false, false);
    RecoveryRises(y);
    assert Rising([x, y]);
    hide Rising, RecoverStages;
    RisingConcat([x, y], RecoverStages(y));
    assert [x, y] + RecoverStages(y)[1..] == [x] + RecoverStages(y);
  }

  lemma ExtendingRises(rows: seq<Row>, a: Address, r: Resource, limit: Option<nat>)
    ensures Rising(ExtendStages(rows, a, r, limit))
  {
    if Find(rows, a) < |rows| {
      assert Grown(rows, WithResource(rows, a, r));
    } else {
      AppendingRises(rows, a, r);
      hide RecoverStages;
    }
  }

  lemma CallRises(x: Index, c: Cut)
    requires Shaped(x)
    ensures Rising(StagesOf(x, c))
  {
    RecoveryRises(x);
    if c.CutRecord? {
      ExtendingRises(Settled(x), c.address, c.resource, c.limit);
      RisingConcat(RecoverStages(x), ExtendStages(Settled(x), c.address, c.resource, c.limit));
    }
  }

  /** What a reader that saw the rows `seen` committed will find at a position of theirs, whatever has
      been appended since: its slot, and an entry with these resources. */
  ghost predicate Readable(d: Disk, root: string, seen: seq<Row>, p: nat, resources: seq<Resource>)
    requires p < |seen|
  {
    var ids, a := PageIds(d, root, p / PAGE_SIZE), seen[p].address;
    && ids.Ok? && p % PAGE_SIZE < |ids.value| && ids.value[p % PAGE_SIZE] == Digest(a)
    && Lookup(d, EntryKey(root, Digest(a))) == Some(EntryValue(Entry(a, resources, p)))
  }

  lemma SeenStaysReadable(d: Disk, root: string, x: Index, seen: seq<Row>, p: nat)
    requires Holds(d, root, x) && Grown(seen, x.rows) && p < |seen|
    ensures Readable(d, root, seen, p, x.rows[p].resources) && seen[p].resources <= x.rows[p].resources
  {
    var pages, entries := InPages(x), InEntries(x);
    assert pages[p] == x.rows[p] && entries[p] == x.rows[p];
    assert PageIds(d, root, p / PAGE_SIZE) == Ok(Slice(pages, p / PAGE_SIZE));
    SliceAt(pages, p);
    var a := seen[p].address;
    assert Lookup(d, EntryKey(root, Digest(a))) == EntryOf(entries, a);
    assert forall i | 0 <= i < p :: entries[i] == Settled(x)[i] && entries[p] == Settled(x)[p];
    assert Find(entries, a) == p;
  }

  lemma TracesTail(d: Disk, root: string, puts: seq<Put>, stages: seq<Index>)
    requires Traces(d, root, puts, stages) && puts != []
    ensures Traces(d[puts[0].key := puts[0].value], root, puts[1..], stages[1..])
  {
    hide Holds;
    var d' := d[puts[0].key := puts[0].value];
    forall k | 0 <= k <= |puts| - 1
      ensures Holds(Apply(d', puts[1..][..k]), root, stages[1..][k])
    {
      assert puts[..k + 1][0] == puts[0] && puts[..k + 1][1..] == puts[1..][..k];
      assert Apply(d, puts[..k + 1]) == Apply(d', puts[1..][..k]);
      assert Holds(Apply(d, puts[..k + 1]), root, stages[k + 1]);
    }
  }

  lemma TracesStart(d: Disk, root: string, puts: seq<Put>, stages: seq<Index>)
    requires Traces(d, root, puts, stages)
    ensures |stages| == |puts| + 1 && Holds(d, root, stages[0]) && Shaped(stages[0])
  {
    assert puts[..0] == [];
    assert Holds(Apply(d, puts[..0]), root, stages[0]);
  }

  lemma RisingTail(stages: seq<Index>)
    requires Rising(stages) && |stages| > 1
    ensures Rising(stages[1..]) && Grown(stages[0].rows, stages[1].rows)
  {
  }

  lemma HistoryGrows(history: seq<Index>, x: Index)
    requires history != [] && Grown(history[|history| - 1].rows, x.rows)
    requires forall i, j | 0 <= i <= j < |history| :: Grown(history[i].rows, history[j].rows)
    ensures var all := history + [x]; forall i, j | 0 <= i <= j < |all| :: Grown(all[i].rows, all[j].rows)
  {
    assert Grown(x.rows, x.rows);
    forall i | 0 <= i < |history|
      ensures Grown(history[i].rows, x.rows)
    {
      GrownFurther(history[i].rows, history[|history| - 1].rows, x.rows);
    }
    hide Grown;
  }

  // ----- the store, and everybody else -----

  /** `todo` holds the puts that the one writer under the lock has still to make; `calls` bounds the
      calls that writers will still begin.  `stages` says what the disk stands for, now and after
      each of those puts, and `history` every index it has stood for, the present one last. */
  class RacingStore {
    const root: string
    var disk: Disk
    var todo: seq<Put>
    var calls: nat
    ghost var stages: seq<Index>
    ghost var history: seq<Index>

    constructor (root: string, disk: Disk, calls: nat, ghost x: Index)
      requires Holds(disk, root, x)
      ensures Valid() && this.root == root && Now() == x && this.calls == calls
    {
      this.root, this.disk, this.todo, this.calls, this.stages, this.history := root, disk, [], calls, [x], [x];
      new;
      assert todo[..0] == [];
    }

    ghost predicate Valid()
      reads this
    {
      && Traces(disk, root, todo, stages)
      && Rising(stages)
      && history != []
      && history[|history| - 1] == stages[0]
      && forall i, j | 0 <= i <= j < |history| :: Grown(history[i].rows, history[j].rows)
    }

    ghost function Now(): Index
      requires Valid()
      reads this
    {
      stages[0]
    }

    /** The most addresses that can ever be committed here. */
    ghost function Most(): nat
      requires Valid()
      reads this
    {
      |Settled(stages[|stages| - 1])| + calls
    }

    /** Any number of single puts, crashes and new calls of the writers. */
    method Meanwhile()
      requires Valid()
      modifies this
      ensures Valid() && Grown(old(Now()).rows, Now().rows) && Most() <= old(Most())
      ensures old(history) <= history
    {
      hide Traces, Rising, Grown;
      var turns: int := *;
      while turns > 0
        invariant Valid() && Most() <= old(Most()) && old(history) <= history
      {
        var crash: bool := *;
        if crash {
          CrashWriter();
        } else if todo != [] {
          PutNext();
        } else if calls > 0 {
          var call: Cut := *;
          BeginCall(call);
        }
        turns := turns - 1;
      }
      assert history[|old(history)| - 1] == old(Now());
    }

    method PutNext()
      requires Valid() && todo != []
      modifies this
      ensures Valid() && Grown(old(Now()).rows, Now().rows) && Most() == old(Most())
      ensures history == old(history) + [Now()]
    {
      hide Traces, Rising, Grown, Settled, Holds, Shaped;
      TracesStart(disk, root, todo, stages);
      TracesTail(disk, root, todo, stages);
      RisingTail(stages);
      HistoryGrows(history, stages[1]);
      disk := disk[todo[0].key := todo[0].value];
      todo, stages := todo[1..], stages[1..];
      history := history + [stages[0]];
    }

    method CrashWriter()
      requires Valid()
      modifies this
      ensures Valid() && Now() == old(Now()) && Most() <= old(Most()) && history == old(history)
    {
      assert |Settled(stages[0])| <= |Settled(stages[|stages| - 1])|;
      assert todo[..0] == [] && Holds(Apply(disk, todo[..0]), root, stages[0]);
      todo, stages := [], [stages[0]];
      assert todo[..0] == [];
    }

    method BeginCall(call: Cut)
      requires Valid() && todo == [] && calls > 0
      modifies this
      ensures Valid() && Now() == old(Now()) && Most() <= old(Most()) && history == old(history)
    {
      hide Holds, CallOf, StagesOf, Traces, Rising, Grown, Apply, Settled, Shaped;
      TracesStart(disk, root, todo, stages);
      CallTraces(disk, root, stages[0], call);
      CallRises(stages[0], call);
      ghost var last := |StagesOf(stages[0], call)| - 1;
      StagesEnd(stages[0], call, last);
      todo, stages, calls := CallOf(disk, root, call).puts, StagesOf(stages[0], call), calls - 1;
    }
  }

  // ----- reading -----

  datatype Listed = Listed(hash: Hash, entry: Entry)

  datatype Page = Page(entries: seq<Listed>, next: Option<nat>)

  /** The entry says of position `p` what one of the indexes since `since` said. */
  ghost predicate HeldSince(history: seq<Index>, since: nat, p: nat, entry: Entry) {
    exists h | since <= h < |history| ::
      p < |history[h].rows| && history[h].rows[p] == Row(entry.address, entry.resources)
  }

  /** `entries` are the rows from `cursor` on, at their positions: each names the resources its row had
      in one of the indexes since `since`, and so all that it had then. */
  ghost predicate Lists(entries: seq<Listed>, history: seq<Index>, since: nat, rows: seq<Row>, cursor: nat)
    requires since < |history|
  {
    && cursor + |entries| <= |rows|
    && forall i | 0 <= i < |entries| ::
         var p, entry := cursor + i, entries[i].entry;
         && entries[i].hash == Digest(rows[p].address)
         && entry.address == rows[p].address
         && entry.position == p
         && HeldSince(history, since, p, entry)
         && (p < |history[since].rows| ==> history[since].rows[p].resources <= entry.resources)
  }

  function PageEnd(cursor: nat, limit: nat, count: nat): nat {
    if cursor + limit < count then cursor + limit else count
  }

  /** Reads one page while anybody writes.  The head is read in some index `at`, which stood when the
      call began or since.  If nothing was pending in it the read cannot fail: the page holds exactly
      its rows, each with all its resources; and recovery is asked for only if an append was pending. */
  method ReadPage(store: RacingStore, cursor: int, limit: int) returns (r: Result<Page, IndexError>, ghost at: nat)
    requires store.Valid()
    modifies store
    ensures store.Valid() && store.Most() <= old(store.Most()) && old(store.history) <= store.history
    ensures |old(store.history)| <= at + 1 && at < |store.history|
    ensures cursor < 0 || !(1 <= limit <= 100) <==> r == Err(BadCursor)
    ensures r != Err(BadCursor) ==> (r.Err? <==> store.history[at].journal.Some?)
    ensures r.Err? ==> r.error.BadCursor? || r.error.RecoveryRequired?
    ensures r.Ok? ==>
              var rows := store.history[at].rows;
              && |r.value.entries| ==
                 (if |rows| <= cursor then 0 else if limit < |rows| - cursor then limit else |rows| - cursor)
              && (r.value.entries != [] ==> Lists(r.value.entries, store.history, at, rows, cursor))
              && r.value.next == if cursor + limit < |rows| then Some(cursor + limit) else None
  {
    hide Holds, Traces, Rising, Readable, Grown;
    at := |store.history| - 1;
    if cursor < 0 || !(1 <= limit <= 100) {
      return Err(BadCursor), at;
    }
    store.Meanwhile();
    at := |store.history| - 1;
    HeadNow(store);
    var head := ReadHead(store.disk, store.root);
    if head.Err? {
      assert false;
    }
    if head.value.pending.Some? {
      return Err(RecoveryRequired), at;
    }
    var entries;
    entries := ReadEntries(store, at, cursor, PageEnd(cursor, limit, head.value.count));
    var end := PageEnd(cursor, limit, head.value.count);
    return Ok(Page(entries, if end < head.value.count then Some(end) else None)), at;
  }

  /** The entries from `cursor` up to `end`, page by page, while anybody writes. */
  method ReadEntries(store: RacingStore, ghost at: nat, cursor: nat, end: nat) returns (entries: seq<Listed>)
    requires store.Valid() && at < |store.history| && end <= |store.history[at].rows|
    modifies store
    ensures store.Valid() && store.Most() <= old(store.Most()) && old(store.history) <= store.history
    ensures |entries| == (if cursor < end then end - cursor else 0)
    ensures cursor < end ==> Lists(entries, store.history, at, store.history[at].rows, cursor)
  {
    hide Holds, Traces, Rising, Readable, Grown, Lists;
    ghost var seen := store.history[at].rows;
    var number, ids := -1, [];
    entries := [];
    ListsNone(store.history, at, seen, cursor);
    for position := cursor to if cursor < end then end else cursor
      invariant store.Valid() && store.Most() <= old(store.Most()) && old(store.history) <= store.history
      invariant position == cursor || position <= |seen|
      invariant |entries| == position - cursor
      invariant cursor <= |seen| ==> Lists(entries, store.history, at, seen, cursor)
      invariant Caches(ids, number, seen)
    {
      ghost var history := store.history;
      if position / PAGE_SIZE != number {
        store.Meanwhile();
        PageNow(store, at, position);
        number := position / PAGE_SIZE;
        ids := PageIds(store.disk, store.root, number).value;
      }
      assert CachedAt(ids, seen, position);
      if |ids| <= position % PAGE_SIZE {
        assert false;
      }
      var hash := ids[position % PAGE_SIZE];
      store.Meanwhile();
      EntryNow(store, at, position);
      var stored := Lookup(store.disk, EntryKey(store.root, hash));
      if stored.None? || !stored.value.EntryValue? || stored.value.entry.position != position {
        assert false;
      }
      ListsStays(entries, history, store.history, at, seen, cursor);
      ListsSnoc(entries, store.history, at, seen, cursor, Listed(hash, stored.value.entry));
      entries := entries + [Listed(hash, stored.value.entry)];
    }
  }

  /** A page read earlier still tells where the rows seen in its range are. */
  predicate CachedAt(ids: seq<Hash>, seen: seq<Row>, p: nat)
    requires p < |seen|
  {
    p % PAGE_SIZE < |ids| && ids[p % PAGE_SIZE] == Digest(seen[p].address)
  }

  predicate Caches(ids: seq<Hash>, number: int, seen: seq<Row>) {
    forall p: nat | p < |seen| && p / PAGE_SIZE == number :: CachedAt(ids, seen, p)
  }

  lemma ListsNone(history: seq<Index>, since: nat, rows: seq<Row>, cursor: nat)
    requires since < |history|
    ensures cursor <= |rows| ==> Lists([], history, since, rows, cursor)
  {
  }

  lemma ListsSnoc(entries: seq<Listed>, history: seq<Index>, since: nat, rows: seq<Row>, cursor: nat, e: Listed)
    requires since < |history| && Lists(entries, history, since, rows, cursor) && cursor + |entries| < |rows|
    requires var p := cursor + |entries|;
             && e.hash == Digest(rows[p].address) && e.entry.address == rows[p].address && e.entry.position == p
             && HeldSince(history, since, p, e.entry)
             && (p < |history[since].rows| ==> history[since].rows[p].resources <= e.entry.resources)
    ensures Lists(entries + [e], history, since, rows, cursor)
  {
    hide HeldSince;
  }

  /** What was listed stays listed as the store moves on, and as rows are added. */
  lemma ListsStays(entries: seq<Listed>, history: seq<Index>, later: seq<Index>, since: nat, rows: seq<Row>,
                   cursor: nat)
    requires since < |history| && history <= later
    ensures cursor <= |rows| && Lists(entries, history, since, rows, cursor) ==>
              Lists(entries, later, since, rows, cursor)
  {
    if cursor <= |rows| && Lists(entries, history, since, rows, cursor) {
      forall i | 0 <= i < |entries|
        ensures HeldSince(later, since, cursor + i, entries[i].entry)
      {
        assert HeldSince(history, since, cursor + i, entries[i].entry);
      }
    }
  }

  lemma HeadNow(store: RacingStore)
    requires store.Valid()
    ensures ReadHead(store.disk, store.root) == Ok(HeadOf(store.Now()))
  {
    HoldsNow(store);
  }

  lemma PageNow(store: RacingStore, at: nat, position: nat)
    requires store.Valid() && at < |store.history| && position < |store.history[at].rows|
    ensures var page := PageIds(store.disk, store.root, position / PAGE_SIZE);
            page.Ok? && Caches(page.value, position / PAGE_SIZE, store.history[at].rows)
  {
    HoldsNow(store);
    var seen := store.history[at].rows;
    assert Grown(seen, store.Now().rows);
    hide Holds, Traces, Rising, Grown;
    SeenStaysReadable(store.disk, store.root, store.Now(), seen, position);
    var ids := PageIds(store.disk, store.root, position / PAGE_SIZE).value;
    forall p: nat | p < |seen| && p / PAGE_SIZE == position / PAGE_SIZE
      ensures CachedAt(ids, seen, p)
    {
      SeenStaysReadable(store.disk, store.root, store.Now(), seen, p);
    }
  }

  lemma EntryNow(store: RacingStore, at: nat, position: nat)
    requires store.Valid() && at < |store.history| && position < |store.history[at].rows|
    ensures var seen := store.history[at].rows;
            var v := Lookup(store.disk, EntryKey(store.root, Digest(seen[position].address)));
            && v.Some? && v.value.EntryValue?
            && v.value.entry.position == position && v.value.entry.address == seen[position].address
            && HeldSince(store.history, at, position, v.value.entry)
            && seen[position].resources <= v.value.entry.resources
  {
    HoldsNow(store);
    var seen, now := store.history[at].rows, store.Now().rows;
    assert Grown(seen, now);
    assert now[position] == Row(seen[position].address, now[position].resources);
    hide Holds, Traces, Rising, Grown;
    SeenStaysReadable(store.disk, store.root, store.Now(), seen, position);
    assert store.history[|store.history| - 1].rows == now;
  }

  lemma HoldsNow(store: RacingStore)
    requires store.Valid()
    ensures Holds(store.disk, store.root, store.Now())
  {
    assert store.todo[..0] == [];
    assert Apply(store.disk, store.todo[..0]) == store.disk;
  }

  /** Follows `next` from 0, with appends between pages: it ends, and lists every row committed when its
      last head was read once, in insertion order, with every resource it had when the reading began.
      It fails exactly when an append was pending in that head. */
  method ReadAll(store: RacingStore, limit: int) returns (r: Result<seq<Listed>, IndexError>, ghost at: nat)
    requires store.Valid() && 1 <= limit <= 100
    modifies store
    ensures store.Valid() && old(store.history) <= store.history
    ensures |old(store.history)| <= at + 1 && at < |store.history|
    ensures r.Err? ==> r.error.RecoveryRequired?
    ensures r.Err? <==> store.history[at].journal.Some?
    ensures r.Ok? ==>
              var start, rows := |old(store.history)| - 1, store.history[at].rows;
              && |r.value| == |rows|
              && Lists(r.value, store.history, start, rows, 0)
              && forall i, j | 0 <= i < j < |rows| :: rows[i].address != rows[j].address
  {
    hide Holds, Traces, Rising, Lists, Grown;
    ghost var start := |store.history| - 1;
    var all, cursor := [], 0;
    at := start;
    ListsNone(store.history, start, store.history[at].rows, 0);
    while true
      invariant store.Valid() && store.Most() <= old(store.Most()) && 0 <= cursor && old(store.history) <= store.history
      invariant start <= at < |store.history|
      invariant |all| == cursor <= |store.history[at].rows|
      invariant Lists(all, store.history, start, store.history[at].rows, 0)
      decreases old(store.Most()) - cursor
    {
      ghost var history, was := store.history, at;
      var page;
      page, at := ReadPage(store, cursor, limit);
      if page.Err? {
        return Err(page.error), at;
      }
      ListsGrow(store, all, history, start, was, at);
      if page.value.entries != [] {
        ListsJoin(store, all, page.value.entries, start, at);
      } else {
        assert all + page.value.entries == all;
      }
      all := all + page.value.entries;
      if page.value.next.None? {
        RowsAreDistinct(store, at);
        return Ok(all), at;
      }
      IsWithinMost(store, at);
      cursor := page.value.next.value;
    }
  }
  lemma ListsGrow(store: RacingStore, entries: seq<Listed>, history: seq<Index>, start: nat, was: nat, at: nat)
    requires store.Valid() && history <= store.history && start < |history|
    requires was < |history| && was <= at < |store.history|
    requires Lists(entries, history, start, history[was].rows, 0)
    ensures Lists(entries, store.history, start, store.history[at].rows, 0)
    ensures |history[was].rows| <= |store.history[at].rows|
  {
    assert Grown(store.history[was].rows, store.history[at].rows);
    hide Traces, Rising, HeldSince;
    ListsStays(entries, history, store.history, start, history[was].rows, 0);
  }

  /** What a later page lists is listed since its own head was read, and so since `start`. */
  lemma ListsJoin(store: RacingStore, entries: seq<Listed>, more: seq<Listed>, start: nat, at: nat)
    requires store.Valid() && start <= at < |store.history|
    requires Lists(entries, store.history, start, store.history[at].rows, 0)
    requires Lists(more, store.history, at, store.history[at].rows, |entries|)
    ensures Lists(entries + more, store.history, start, store.history[at].rows, 0)
  {
    var history, rows := store.history, store.history[at].rows;
    assert Grown(history[start].rows, rows);
    hide Traces, Rising;
    forall i | 0 <= i < |more|
      ensures var p := |entries| + i;
              && HeldSince(history, start, p, more[i].entry)
              && (p < |history[start].rows| ==> history[start].rows[p].resources <= more[i].entry.resources)
    {
      assert HeldSince(history, at, |entries| + i, more[i].entry);
    }
    hide HeldSince;
  }

  lemma RowsAreDistinct(store: RacingStore, at: nat)
    requires store.Valid() && at < |store.history|
    ensures var rows := store.history[at].rows;
            forall i, j | 0 <= i < j < |rows| :: rows[i].address != rows[j].address
  {
    HoldsNow(store);
    var rows, now := store.history[at].rows, Settled(store.Now());
    assert Grown(rows, store.Now().rows);
    assert forall i | 0 <= i < |rows| :: now[i].address == rows[i].address;
  }

  lemma IsWithinMost(store: RacingStore, at: nat)
    requires store.Valid() && at < |store.history|
    ensures |store.history[at].rows| <= store.Most()
  {
    assert Grown(store.history[at].rows, store.Now().rows);
    assert |Settled(store.stages[0])| <= |Settled(store.stages[|store.stages| - 1])|;
  }
}

/** The journalled address index: a commit head, fixed pages and one entry per address, written put
    by put over a store that may be cut off between any two puts. */
module AddressIndex {
  import opened Wrappers

  const PAGE_SIZE: nat := 100

  datatype Address = Address(agent: Option<string>, scope: string)

  /** A digest, which is injective. */
  datatype Hash = Digest(address: Address)

  datatype Slot = Ephemeral | Durable
  datatype Kind = SessionState | LockFile | TaskFile | ThreadFile
  datatype Resource = Resource(slot: Slot, kind: Kind, key: string)

  datatype Entry = Entry(address: Address, resources: seq<Resource>, position: int)
  datatype Journal = Journal(hash: Hash, position: int, entry: Entry)
  datatype Head = Head(count: int, pages: int, pending: Option<Journal>)

  /** One namespace of keys per participant. */
  datatype Key = HeadKey(root: string) | PageKey(root: string, number: int) | EntryKey(root: string, hash: Hash)

  datatype Value = HeadValue(head: Head) | PageValue(ids: seq<Hash>) | EntryValue(entry: Entry) | Malformed

  type Disk = map<Key, Value>

  datatype Put = Put(key: Key, value: Value)

  datatype IndexError =
    | InvalidHead
    | InvalidPage
    | InvalidJournal
    | ConflictingJournal
    | InvalidEntry
    | UnlinkedEntry
    | MissingMember
    | MissingEntry
    | LimitExceeded
    | RecoveryRequired
    | BadCursor

  // ----- reading -----

  function PageCount(count: int): int {
    (count + PAGE_SIZE - 1) / PAGE_SIZE
  }

  function ReadHead(d: Disk, root: string): Result<Head, IndexError> {
    if HeadKey(root) !in d then Ok(Head(0, 0, None))
    else
      var v := d[HeadKey(root)];
      if v.HeadValue? && v.head.count >= 0 && v.head.pages == PageCount(v.head.count) then Ok(v.head)
      else Err(InvalidHead)
  }

  function PageIds(d: Disk, root: string, number: int): Result<seq<Hash>, IndexError> {
    if PageKey(root, number) !in d then Ok([])
    else
      var v := d[PageKey(root, number)];
      if v.PageValue? && |v.ids| <= PAGE_SIZE then Ok(v.ids) else Err(InvalidPage)
  }

  function Lookup(d: Disk, key: Key): Option<Value> {
    if key in d then Some(d[key]) else None
  }

  // ----- the puts of a call -----

  function Apply(d: Disk, puts: seq<Put>): Disk
    decreases |puts|
  {
    if puts == [] then d else Apply(d[puts[0].key := puts[0].value], puts[1..])
  }

  datatype Recovery = Recovery(puts: seq<Put>, head: Head)

  /** Roll the journalled append forward: page, entry, head. */
  function Recover(d: Disk, root: string, head: Head): Result<Recovery, IndexError> {
    if head.pending.None? then Ok(Recovery([], head))
    else
      var j := head.pending.value;
      if j.position != head.count || j.entry.position != head.count then Err(InvalidJournal)
      else
        var number, offset := head.count / PAGE_SIZE, head.count % PAGE_SIZE;
        match PageIds(d, root, number)
        case Err(e) => Err(e)
        case Ok(ids) =>
          if |ids| != offset && (|ids| != offset + 1 || ids[offset] != j.hash) then Err(ConflictingJournal)
          else
            var paging := if |ids| == offset then [Put(PageKey(root, number), PageValue(ids + [j.hash]))] else [];
            var committed := Head(head.count + 1, number + 1, None);
            Ok(Recovery(
                 paging + [Put(EntryKey(root, j.hash), EntryValue(j.entry)), Put(HeadKey(root), HeadValue(committed))],
                 committed))
  }

  /** What a call puts, in order, and what it answers. */
  datatype Call = Call(puts: seq<Put>, reply: Result<(), IndexError>)

  function RecoverCall(d: Disk, root: string): Call {
    match ReadHead(d, root)
    case Err(e) => Call([], Err(e))
    case Ok(head) =>
      match Recover(d, root, head)
      case Err(e) => Call([], Err(e))
      case Ok(r) => Call(r.puts, Ok(()))
  }

  /** A further resource of an address that has an entry. */
  function Extend(d: Disk, root: string, head: Head, a: Address, r: Resource, existing: Value): Call {
    if !existing.EntryValue? || existing.entry.address != a || !(0 <= existing.entry.position < head.count) then
      Call([], Err(InvalidEntry))
    else
      var p := existing.entry.position;
      match PageIds(d, root, p / PAGE_SIZE)
      case Err(e) => Call([], Err(e))
      case Ok(ids) =>
        if |ids| <= p % PAGE_SIZE || ids[p % PAGE_SIZE] != Digest(a) then Call([], Err(UnlinkedEntry))
        else if r in existing.entry.resources then Call([], Ok(()))
        else
          var entry := existing.entry.(resources := existing.entry.resources + [r]);
          Call([Put(EntryKey(root, Digest(a)), EntryValue(entry))], Ok(()))
  }

  /** A new address: journal it, then roll it forward. */
  function Append(d: Disk, root: string, head: Head, a: Address, r: Resource, limit: Option<nat>): Call {
    if limit.Some? && head.count >= limit.value then Call([], Err(LimitExceeded))
    else
      var prepared := head.(pending := Some(Journal(Digest(a), head.count, Entry(a, [r], head.count))));
      var first := Put(HeadKey(root), HeadValue(prepared));
      match Recover(Apply(d, [first]), root, prepared)
      case Err(e) => Call([first], Err(e))
      case Ok(rest) => Call([first] + rest.puts, Ok(()))
  }

  function RecordCall(d: Disk, root: string, a: Address, r: Resource, limit: Option<nat>): Call {
    match ReadHead(d, root)
    case Err(e) => Call([], Err(e))
    case Ok(head) =>
      match Recover(d, root, head)
      case Err(e) => Call([], Err(e))
      case Ok(recovery) =>
        var d' := Apply(d, recovery.puts);
        var call :=
          match Lookup(d', EntryKey(root, Digest(a)))
          case None => Append(d', root, recovery.head, a, r, limit)
          case Some(v) => Extend(d', root, recovery.head, a, r, v);
        Call(recovery.puts + call.puts, call.reply)
  }

  // ----- what a disk means -----

  datatype Row = Row(address: Address, resources: seq<Resource>)

  /** The committed rows in insertion order, an append under way, and how far it has come. */
  datatype Index = Index(rows: seq<Row>, journal: Option<Row>, paged: bool, entered: bool)

  function InPages(x: Index): seq<Row> {
    if x.paged && x.journal.Some? then x.rows + [x.journal.value] else x.rows
  }

  function InEntries(x: Index): seq<Row> {
    if x.entered && x.journal.Some? then x.rows + [x.journal.value] else x.rows
  }

  function Min(a: int, b: int): int {
    if a < b then a else b
  }

  function Slice(rows: seq<Row>, number: int): (r: seq<Hash>)
    requires number >= 0
    ensures |r| <= PAGE_SIZE
  {
    var lo := Min(PAGE_SIZE * number, |rows|);
    var hi := Min(PAGE_SIZE * number + PAGE_SIZE, |rows|);
    seq(hi - lo, i requires 0 <= i < hi - lo => Digest(rows[lo + i].address))
  }

  /** Where an address stands, or the length when it is nowhere. */
  function Find(rows: seq<Row>, a: Address): (k: nat)
    ensures k <= |rows| && (k < |rows| ==> rows[k].address == a) && forall i | 0 <= i < k :: rows[i].address != a
  {
    if rows == [] || rows[0].address == a then 0 else 1 + Find(rows[1..], a)
  }

  function EntryOf(rows: seq<Row>, a: Address): Option<Value> {
    var k := Find(rows, a);
    if k < |rows| then Some(EntryValue(Entry(a, rows[k].resources, k))) else None
  }

  function HeadOf(x: Index): Head {
    Head(|x.rows|, PageCount(|x.rows|),
         if x.journal.None? then None
         else Some(Journal(Digest(x.journal.value.address), |x.rows|,
                           Entry(x.journal.value.address, x.journal.value.resources, |x.rows|))))
  }

  predicate Distinct(rows: seq<Row>) {
    forall i, j | 0 <= i < j < |rows| :: rows[i].address != rows[j].address
  }

  function Settled(x: Index): seq<Row> {
    if x.journal.Some? then x.rows + [x.journal.value] else x.rows
  }

  ghost predicate PagesHold(d: Disk, root: string, rows: seq<Row>) {
    forall n: int | n >= 0 :: PageIds(d, root, n) == Ok(Slice(rows, n))
  }

  ghost predicate EntriesHold(d: Disk, root: string, rows: seq<Row>) {
    forall a: Address :: Lookup(d, EntryKey(root, Digest(a))) == EntryOf(rows, a)
  }

  predicate Shaped(x: Index) {
    (x.entered ==> x.paged) && (x.paged ==> x.journal.Some?)
  }

  /** The disk stores exactly this index. */
  ghost predicate Holds(d: Disk, root: string, x: Index) {
    && Shaped(x)
    && Distinct(Settled(x))
    && ReadHead(d, root) == Ok(HeadOf(x))
    && PagesHold(d, root, InPages(x))
    && EntriesHold(d, root, InEntries(x))
  }

  // ----- what is read, and what is refused -----

  /** A head that was never written is an empty one; a stored one counts its pages of a hundred. */
  lemma HeadTells(d: Disk, root: string, head: Head)
    ensures ReadHead(d, root) == Ok(head) <==>
            if HeadKey(root) in d then
              && d[HeadKey(root)] == HeadValue(head)
              && head.count >= 0
              && 100 * (head.pages - 1) < head.count <= 100 * head.pages
            else head == Head(0, 0, None)
    ensures ReadHead(d, root).Err? ==> ReadHead(d, root).error == InvalidHead
  {
  }

  lemma PageTells(d: Disk, root: string, number: int, ids: seq<Hash>)
    ensures PageIds(d, root, number) == Ok(ids) <==>
            if PageKey(root, number) in d then d[PageKey(root, number)] == PageValue(ids) && |ids| <= 100
            else ids == []
    ensures PageIds(d, root, number).Err? ==> PageIds(d, root, number).error == InvalidPage
  {
  }

  // ----- pages and entries as rows are appended -----

  lemma SliceAppend(rows: seq<Row>, row: Row, n: int)
    requires n >= 0
    ensures Slice(rows + [row], n) ==
            if n == |rows| / 100 then Slice(rows, n) + [Digest(row.address)] else Slice(rows, n)
    ensures n == |rows| / 100 ==> |Slice(rows, n)| == |rows| % 100
  {
  }

  lemma SliceAt(rows: seq<Row>, p: nat)
    requires p < |rows|
    ensures p % 100 < |Slice(rows, p / 100)|
    ensures Slice(rows, p / 100)[p % 100] == Digest(rows[p].address)
  {
  }

  lemma FindAppend(rows: seq<Row>, row: Row, a: Address)
    requires forall i | 0 <= i < |rows| :: rows[i].address != row.address
    ensures EntryOf(rows + [row], a) ==
            if a == row.address then Some(EntryValue(Entry(a, row.resources, |rows|))) else EntryOf(rows, a)
  {
    var j, k := Find(rows + [row], a), Find(rows, a);
    assert forall i | 0 <= i < |rows| :: (rows + [row])[i] == rows[i];
    if k < |rows| {
      assert j == k;
    } else if a == row.address {
      assert (rows + [row])[|rows|].address == a;
    }
  }

  // ----- one put at a time -----

  lemma Prepare(d: Disk, root: string, x: Index, row: Row)
    requires Holds(d, root, x) && x.journal.None? && Distinct(x.rows + [row])
    ensures var y := x.(journal := Some(row)); Holds(d[HeadKey(root) := HeadValue(HeadOf(y))], root, y)
  {
    var d' := d[HeadKey(root) := HeadValue(HeadOf(x.(journal := Some(row))))];
    assert forall n: int | n >= 0 :: PageIds(d', root, n) == PageIds(d, root, n);
  }

  lemma WritePage(d: Disk, root: string, x: Index)
    requires Holds(d, root, x) && x.journal.Some? && !x.paged
    ensures var n := |x.rows| / PAGE_SIZE;
            var ids := Slice(x.rows, n) + [Digest(x.journal.value.address)];
            && PageIds(d, root, n) == Ok(Slice(x.rows, n)) && |Slice(x.rows, n)| == |x.rows| % PAGE_SIZE
            && Holds(d[PageKey(root, n) := PageValue(ids)], root, x.(paged := true))
  {
    var row := x.journal.value;
    var m := |x.rows| / PAGE_SIZE;
    SliceAppend(x.rows, row, m);
    var d' := d[PageKey(root, m) := PageValue(Slice(x.rows, m) + [Digest(row.address)])];
    forall n: int | n >= 0
      ensures PageIds(d', root, n) == Ok(Slice(x.rows + [row], n))
    {
      SliceAppend(x.rows, row, n);
      assert PageIds(d, root, n) == Ok(Slice(x.rows, n));
    }
  }

  lemma WriteEntry(d: Disk, root: string, x: Index)
    requires Holds(d, root, x) && x.paged
    ensures var row := x.journal.value;
            var entry := Entry(row.address, row.resources, |x.rows|);
            Holds(d[EntryKey(root, Digest(row.address)) := EntryValue(entry)], root, x.(entered := true))
  {
    var row := x.journal.value;
    var d' := d[EntryKey(root, Digest(row.address)) := EntryValue(Entry(row.address, row.resources, |x.rows|))];
    var all := x.rows + [row];
    assert all[|x.rows|] == row;
    assert forall i | 0 <= i < |x.rows| :: all[i] == x.rows[i] && x.rows[i].address != all[|x.rows|].address;
    forall a: Address
      ensures Lookup(d', EntryKey(root, Digest(a))) == EntryOf(all, a)
    {
      FindAppend(x.rows, row, a);
      assert Lookup(d, EntryKey(root, Digest(a))) == EntryOf(InEntries(x), a);
    }
    assert forall n: int | n >= 0 :: PageIds(d', root, n) == PageIds(d, root, n);
  }

  lemma Commit(d: Disk, root: string, x: Index)
    requires Holds(d, root, x) && x.entered
    ensures var y := Index(Settled(x), None, false, false);
            && HeadOf(y) == Head(|x.rows| + 1, |x.rows| / PAGE_SIZE + 1, None)
            && Holds(d[HeadKey(root) := HeadValue(HeadOf(y))], root, y)
  {
    var d' := d[HeadKey(root) := HeadValue(HeadOf(Index(Settled(x), None, false, false)))];
    assert forall n: int | n >= 0 :: PageIds(d', root, n) == PageIds(d, root, n);
  }

  lemma FindUpdate(rows: seq<Row>, k: nat, row: Row, a: Address)
    requires Distinct(rows) && k < |rows| && row.address == rows[k].address
    ensures EntryOf(rows[k := row], a) ==
            if a == row.address then Some(EntryValue(Entry(a, row.resources, k))) else EntryOf(rows, a)
  {
    var us := rows[k := row];
    var i, j := Find(us, a), Find(rows, a);
    assert forall m | 0 <= m < |rows| :: us[m].address == rows[m].address;
  }

  lemma AddResource(d: Disk, root: string, x: Index, k: nat, row: Row)
    requires Holds(d, root, x) && x.journal.None? && k < |x.rows| && row.address == x.rows[k].address
    ensures Holds(d[EntryKey(root, Digest(row.address)) := EntryValue(Entry(row.address, row.resources, k))], root,
                  x.(rows := x.rows[k := row]))
  {
    var us := x.rows[k := row];
    var d' := d[EntryKey(root, Digest(row.address)) := EntryValue(Entry(row.address, row.resources, k))];
    forall a: Address
      ensures Lookup(d', EntryKey(root, Digest(a))) == EntryOf(us, a)
    {
      FindUpdate(x.rows, k, row, a);
      assert Lookup(d, EntryKey(root, Digest(a))) == EntryOf(x.rows, a);
    }
    forall n: int | n >= 0
      ensures PageIds(d', root, n) == Ok(Slice(us, n))
    {
      assert Slice(us, n) == Slice(x.rows, n);
      assert PageIds(d', root, n) == PageIds(d, root, n);
    }
  }
}

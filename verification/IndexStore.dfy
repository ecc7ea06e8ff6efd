/** The index over a store: the writer's methods, put by put, and lock-free paging beside them. */
module IndexStore {
  import opened Wrappers
  import opened AddressIndex
  import opened IndexRecovery

  // ----- writing, under the root's lock -----

  /** A store that remembers, for the specification, the puts made through it. */
  class Store {
    var disk: Disk
    ghost var written: seq<Put>

    constructor ()
      ensures disk == map[] && written == []
    {
      disk, written := map[], [];
    }

    function Get(key: Key): Option<Value>
      reads this
    {
      Lookup(disk, key)
    }

    method Put(key: Key, value: Value)
      modifies this
      ensures disk == old(disk)[key := value]
      ensures written == old(written) + [AddressIndex.Put.Put(key, value)]
    {
      disk := disk[key := value];
      written := written + [AddressIndex.Put.Put(key, value)];
    }
  }

  class StoreAddressIndex {
    const store: Store
    const limit: Option<nat>

    constructor (store: Store, limit: Option<nat>)
      ensures this.store == store && this.limit == limit
    {
      this.store, this.limit := store, limit;
    }

    /** Rolls a journalled append forward and answers the head it leaves. */
    method Roll(root: string, head: Head) returns (r: Result<Head, IndexError>)
      modifies store
      ensures var spec := AddressIndex.Recover(old(store.disk), root, head);
              match spec
              case Err(e) => r == Err(e) && store.disk == old(store.disk) && store.written == old(store.written)
              case Ok(rec) =>
                && r == Ok(rec.head)
                && store.disk == Apply(old(store.disk), rec.puts)
                && store.written == old(store.written) + rec.puts
    {
      if head.pending.None? {
        return Ok(head);
      }
      var journal := head.pending.value;
      if journal.position != head.count || journal.entry.position != head.count {
        return Err(InvalidJournal);
      }
      var number, offset := head.count / PAGE_SIZE, head.count % PAGE_SIZE;
      var page := PageIds(store.disk, root, number);
      if page.Err? {
        return Err(page.error);
      }
      var ids := page.value;
      ghost var disk, paging: seq<Put> := store.disk, [];
      if |ids| == offset {
        ids := ids + [journal.hash];
        store.Put(PageKey(root, number), PageValue(ids));
        paging := [Put(PageKey(root, number), PageValue(ids))];
        ApplySnoc(disk, [], paging[0]);
      } else if |ids| != offset + 1 || ids[offset] != journal.hash {
        return Err(ConflictingJournal);
      }
      store.Put(EntryKey(root, journal.hash), EntryValue(journal.entry));
      var committed := Head(head.count + 1, number + 1, None);
      store.Put(HeadKey(root), HeadValue(committed));
      ghost var entryPut := Put(EntryKey(root, journal.hash), EntryValue(journal.entry));
      ghost var headPut := Put(HeadKey(root), HeadValue(committed));
      ApplySnoc(disk, paging, entryPut);
      ApplySnoc(disk, paging + [entryPut], headPut);
      assert paging + [entryPut, headPut] == paging + [entryPut] + [headPut];
      return Ok(committed);
    }

    method Recover(root: string) returns (reply: Result<(), IndexError>)
      modifies store
      ensures var call := RecoverCall(old(store.disk), root);
              && reply == call.reply
              && store.disk == Apply(old(store.disk), call.puts)
              && store.written == old(store.written) + call.puts
    {
      var head := ReadHead(store.disk, root);
      if head.Err? {
        return Err(head.error);
      }
      var rolled := Roll(root, head.value);
      if rolled.Err? {
        return Err(rolled.error);
      }
      return Ok(());
    }

    /** Lists a resource under its address; the puts are those of `RecordCall`, in its order, so a
        crash leaves one of its prefixes. */
    method Record(root: string, a: Address, resource: Resource) returns (reply: Result<(), IndexError>)
      modifies store
      ensures var call := RecordCall(old(store.disk), root, a, resource, limit);
              && reply == call.reply
              && store.disk == Apply(old(store.disk), call.puts)
              && store.written == old(store.written) + call.puts
    {
      hide Extend, Append, AddressIndex.Recover, ReadHead;
      ghost var disk := store.disk;
      var stored := ReadHead(store.disk, root);
      if stored.Err? {
        return Err(stored.error);
      }
      var rolled := Roll(root, stored.value);
      if rolled.Err? {
        return Err(rolled.error);
      }
      var head := rolled.value;
      ghost var first := AddressIndex.Recover(disk, root, stored.value).value.puts;
      var existing := store.Get(EntryKey(root, Digest(a)));
      if existing.Some? {
        reply := AddTo(root, head, a, resource, existing.value);
        ApplyConcat(disk, first, Extend(Apply(disk, first), root, head, a, resource, existing.value).puts);
      } else {
        reply := AddNew(root, head, a, resource);
        ApplyConcat(disk, first, Append(Apply(disk, first), root, head, a, resource, limit).puts);
      }
    }

    method AddNew(root: string, head: Head, a: Address, resource: Resource) returns (reply: Result<(), IndexError>)
      modifies store
      ensures var call := Append(old(store.disk), root, head, a, resource, limit);
              && reply == call.reply
              && store.disk == Apply(old(store.disk), call.puts)
              && store.written == old(store.written) + call.puts
    {
      ghost var disk := store.disk;
      if limit.Some? && head.count >= limit.value {
        return Err(LimitExceeded);
      }
      var prepared := head.(pending := Some(Journal(Digest(a), head.count, Entry(a, [resource], head.count))));
      store.Put(HeadKey(root), HeadValue(prepared));
      ghost var put := Put(HeadKey(root), HeadValue(prepared));
      assert Apply(disk, [put]) == store.disk;
      var again := Roll(root, prepared);
      if again.Err? {
        return Err(again.error);
      }
      ApplyConcat(disk, [put], AddressIndex.Recover(Apply(disk, [put]), root, prepared).value.puts);
      return Ok(());
    }

    method AddTo(root: string, head: Head, a: Address, resource: Resource, existing: Value)
      returns (reply: Result<(), IndexError>)
      modifies store
      ensures var call := Extend(old(store.disk), root, head, a, resource, existing);
              && reply == call.reply
              && store.disk == Apply(old(store.disk), call.puts)
              && store.written == old(store.written) + call.puts
    {
      if !existing.EntryValue? || existing.entry.address != a ||
         !(0 <= existing.entry.position < head.count) {
        return Err(InvalidEntry);
      }
      var position := existing.entry.position;
      var page := PageIds(store.disk, root, position / PAGE_SIZE);
      if page.Err? {
        return Err(page.error);
      }
      if |page.value| <= position % PAGE_SIZE || page.value[position % PAGE_SIZE] != Digest(a) {
        return Err(UnlinkedEntry);
      }
      if resource in existing.entry.resources {
        return Ok(());
      }
      var entry := existing.entry.(resources := existing.entry.resources + [resource]);
      store.Put(EntryKey(root, Digest(a)), EntryValue(entry));
      return Ok(());
    }
  }
}

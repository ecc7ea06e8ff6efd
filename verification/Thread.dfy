/** The stored conversation: an append-only list whose positions the thread assigns. */
module Thread {
  import opened Wrappers

  datatype Entry<+M> = Entry(position: nat, message: M, runId: Option<string>)

  /** The entries a batch becomes behind `length` stored ones. */
  function Batch<M>(length: nat, messages: seq<M>, runId: Option<string>): (r: seq<Entry<M>>)
    ensures |r| == |messages|
    ensures forall i | 0 <= i < |messages| :: r[i] == Entry(length + i + 1, messages[i], runId)
  {
    seq(|messages|, i requires 0 <= i < |messages| => Entry(length + i + 1, messages[i], runId))
  }

  function Messages<M>(entries: seq<Entry<M>>): (r: seq<M>)
    ensures |r| == |entries| && forall i | 0 <= i < |r| :: r[i] == entries[i].message
  {
    seq(|entries|, i requires 0 <= i < |entries| => entries[i].message)
  }

  predicate Numbered<M>(entries: seq<Entry<M>>) {
    forall i | 0 <= i < |entries| :: entries[i].position == i + 1
  }

  /** Numbering goes on where it stood, and no message is lost or moved. */
  lemma BatchContinues<M>(entries: seq<Entry<M>>, messages: seq<M>, runId: Option<string>)
    requires Numbered(entries)
    ensures var all := entries + Batch(|entries|, messages, runId);
            Numbered(all) && Messages(all) == Messages(entries) + messages
  {
  }

  /** Two batches of a run, one behind the other, are numbered as one. */
  lemma BatchesJoin<M>(length: nat, first: seq<M>, second: seq<M>, runId: Option<string>)
    ensures Batch(length, first + second, runId) == Batch(length, first, runId) + Batch(length + |first|, second, runId)
  {
  }

  /** `entries` is what the store holds under the thread's key; each mutating method is one critical
      section of the store's lock. */
  class Thread<M> {
    var entries: seq<Entry<M>>

    constructor ()
      ensures entries == []
    {
      entries := [];
    }

    method Record(messages: seq<M>, runId: Option<string>) returns (appended: seq<Entry<M>>)
      modifies `entries
      ensures entries == old(entries) + appended
      ensures Messages(appended) == messages
      ensures old(Numbered(entries)) ==> Numbered(entries)
      ensures forall i | 0 <= i < |appended| :: appended[i].runId == runId
    {
      if messages == [] {
        return [];
      }
      appended := Batch(|entries|, messages, runId);
      entries := entries + appended;
    }

    method Clear()
      modifies `entries
      ensures entries == []
    {
      entries := [];
    }
  }
}

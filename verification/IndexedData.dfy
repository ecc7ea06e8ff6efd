/** Data behind the index: a key is written only by a writer whose record of it was answered, and
    anything may happen between the record and the write. */
module IndexedData {
  import opened AddressIndex
  import opened IndexRecovery

  type Writer = nat

  /** The disk of the index, the writers that may still write a key they recorded, and the keys that
      hold data. */
  datatype World = World(disk: Disk, entitled: set<(Writer, Address, Resource)>, data: set<(Address, Resource)>)

  /** A record or recovery, cut off anywhere or whole; the write that follows a record; a writer's
      crash; a forget. */
  datatype Step =
    | IndexCall(writer: Writer, cut: Cut)
    | PutData(writer: Writer, address: Address, resource: Resource)
    | Die(writer: Writer)
    | Forget(address: Address, resource: Resource)

  predicate CanStep(w: World, s: Step) {
    s.PutData? ==> (s.writer, s.address, s.resource) in w.entitled
  }

  /** The record made all its puts and answered without an error. */
  predicate Answered(w: World, root: string, s: Step) {
    && s.IndexCall?
    && s.cut.CutRecord?
    && s.cut.kept >= |CallOf(w.disk, root, s.cut).puts|
    && CallOf(w.disk, root, s.cut).reply.Ok?
  }

  function DoStep(w: World, root: string, s: Step): World
    requires CanStep(w, s)
  {
    match s
    case IndexCall(writer, cut) =>
      World(
        AfterCut(w.disk, root, cut),
        if Answered(w, root, s) then w.entitled + {(writer, cut.address, cut.resource)} else w.entitled,
        w.data)
    case PutData(writer, a, r) => w.(entitled := w.entitled - {(writer, a, r)}, data := w.data + {(a, r)})
    case Die(writer) => w.(entitled := set e | e in w.entitled && e.0 != writer)
    case Forget(a, r) => w.(data := w.data - {(a, r)})
  }

  predicate Possible(w: World, root: string, steps: seq<Step>)
    decreases steps
  {
    steps == [] || (CanStep(w, steps[0]) && Possible(DoStep(w, root, steps[0]), root, steps[1..]))
  }

  function AfterSteps(w: World, root: string, steps: seq<Step>): World
    requires Possible(w, root, steps)
    decreases steps
  {
    if steps == [] then w else AfterSteps(DoStep(w, root, steps[0]), root, steps[1..])
  }

  predicate Lists(rows: seq<Row>, a: Address, r: Resource) {
    Find(rows, a) < |rows| && r in rows[Find(rows, a)].resources
  }

  lemma RecordingKeepsLists(rows: seq<Row>, a: Address, r: Resource, b: Address, q: Resource)
    requires Distinct(rows) && Lists(rows, b, q)
    ensures Lists(WithResource(rows, a, r), b, q)
  {
    var k := Find(rows, b);
    var us := WithResource(rows, a, r);
    assert us[k].address == b && q in us[k].resources;
    assert forall i | 0 <= i < |rows| :: us[i].address == rows[i].address;
    assert Find(us, b) == k;
  }

  lemma RecordingLists(rows: seq<Row>, a: Address, r: Resource)
    requires Distinct(rows)
    ensures Lists(WithResource(rows, a, r), a, r)
  {
    var k := Find(rows, a);
    var us := WithResource(rows, a, r);
    assert us[k].address == a && r in us[k].resources;
    assert forall i | 0 <= i < |rows| :: us[i].address == rows[i].address;
    assert Find(us, a) == k;
  }

  lemma TargetLists(rows: seq<Row>, c: Cut, b: Address, q: Resource)
    requires Distinct(rows)
    ensures Lists(rows, b, q) ==> Lists(Target(rows, c), b, q)
    ensures c.CutRecord? && !Refused(rows, c.address, c.limit) ==> Lists(Target(rows, c), c.address, c.resource)
  {
    if c.CutRecord? {
      if Lists(rows, b, q) {
        RecordingKeepsLists(rows, c.address, c.resource, b, q);
      }
      RecordingLists(rows, c.address, c.resource);
    }
  }

  /** Everything written, and everything that may still be, is listed. */
  ghost predicate AllIndexed(w: World, root: string, x: Index) {
    && Holds(w.disk, root, x)
    && (forall p | p in w.data :: Lists(Settled(x), p.0, p.1))
    && forall e | e in w.entitled :: Lists(Settled(x), e.1, e.2)
  }

  /** A call cut off anywhere drops no listed resource, and a record that was answered listed its own. */
  lemma CutKeepsLists(d: Disk, root: string, x: Index, c: Cut) returns (y: Index)
    requires Holds(d, root, x)
    ensures Holds(AfterCut(d, root, c), root, y)
    ensures forall b, q | Lists(Settled(x), b, q) :: Lists(Settled(y), b, q)
    ensures c.CutRecord? && c.kept >= |CallOf(d, root, c).puts| && CallOf(d, root, c).reply.Ok? ==>
              Lists(Settled(y), c.address, c.resource)
  {
    assert Distinct(Settled(x));
    y := CrashIsAtomic(d, root, x, c);
    CallTraces(d, root, x, c);
    hide Holds, CallOf, AfterCut, Lists, Traces;
    if c.CutRecord? {
      TargetLists(Settled(x), c, c.address, c.resource);
    }
    forall b, q | Lists(Settled(x), b, q)
      ensures Lists(Settled(y), b, q)
    {
      TargetLists(Settled(x), c, b, q);
    }
  }

  lemma StepKeepsIndexed(w: World, root: string, x: Index, s: Step) returns (y: Index)
    requires AllIndexed(w, root, x) && CanStep(w, s)
    ensures AllIndexed(DoStep(w, root, s), root, y)
  {
    if s.IndexCall? {
      y := CutKeepsLists(w.disk, root, x, s.cut);
    } else {
      y := x;
    }
    hide Holds, CallOf, AfterCut, Lists;
  }

  lemma {:induction false} StepsKeepIndexed(w: World, root: string, x: Index, steps: seq<Step>) returns (y: Index)
    requires AllIndexed(w, root, x) && Possible(w, root, steps)
    ensures AllIndexed(AfterSteps(w, root, steps), root, y)
    decreases steps
  {
    if steps == [] {
      y := x;
    } else {
      var z := StepKeepsIndexed(w, root, x, steps[0]);
      y := StepsKeepIndexed(DoStep(w, root, steps[0]), root, z, steps[1..]);
    }
  }

  /** The entry of the address, on disk, names the resource. */
  predicate DiskLists(d: Disk, root: string, a: Address, r: Resource) {
    var v := Lookup(d, EntryKey(root, Digest(a)));
    v.Some? && v.value.EntryValue? && v.value.entry.address == a && r in v.value.entry.resources
  }

  /** From a fresh root, over any steps of any writers, crashes between a record and its write
      included: once recovered, the disk lists every key that holds data, and every key a writer is
      still about to write. */
  lemma DataIsAlwaysIndexed(d: Disk, root: string, steps: seq<Step>)
    requires Untouched(d, root) && Possible(World(d, {}, {}), root, steps)
    ensures var w := AfterSteps(World(d, {}, {}), root, steps);
            var recovered := Apply(w.disk, RecoverCall(w.disk, root).puts);
            && RecoverCall(w.disk, root).reply.Ok?
            && (forall p | p in w.data :: DiskLists(recovered, root, p.0, p.1))
            && forall e | e in w.entitled :: DiskLists(recovered, root, e.1, e.2)
  {
    EmptyHolds(d, root);
    var x := StepsKeepIndexed(World(d, {}, {}), root, Clean([]), steps);
    var w := AfterSteps(World(d, {}, {}), root, steps);
    var y := InterruptedRecovery(w.disk, root, x, []);
    CallTraces(w.disk, root, x, CutRecover(0));
    var recovered := Apply(w.disk, RecoverCall(w.disk, root).puts);
    hide AfterSteps, Possible, RecoverCall, Apply;
    forall a, r | Lists(Settled(x), a, r)
      ensures DiskLists(recovered, root, a, r)
    {
      ListedOnDisk(recovered, root, Settled(x), a, r);
    }
  }

  lemma ListedOnDisk(d: Disk, root: string, rows: seq<Row>, a: Address, r: Resource)
    requires Holds(d, root, Clean(rows)) && Lists(rows, a, r)
    ensures DiskLists(d, root, a, r)
  {
    assert Lookup(d, EntryKey(root, Digest(a))) == EntryOf(rows, a);
  }

  /** One of the steps is a record of this key that was answered without an error. */
  predicate Recorded(w: World, root: string, steps: seq<Step>, a: Address, r: Resource)
    requires Possible(w, root, steps)
    decreases steps
  {
    steps != []
    && ((Answered(w, root, steps[0]) && steps[0].cut.address == a && steps[0].cut.resource == r)
        || Recorded(DoStep(w, root, steps[0]), root, steps[1..], a, r))
  }

  /** A key whose every record was refused, failed or was cut off never holds data. */
  lemma {:induction false} RefusedKeysHoldNoData(w: World, root: string, steps: seq<Step>, a: Address, r: Resource)
    requires Possible(w, root, steps) && !Recorded(w, root, steps, a, r)
    requires (a, r) !in w.data && forall e | e in w.entitled :: (e.1, e.2) != (a, r)
    ensures var u := AfterSteps(w, root, steps);
            (a, r) !in u.data && forall e | e in u.entitled :: (e.1, e.2) != (a, r)
    decreases steps
  {
    if steps != [] {
      var u := DoStep(w, root, steps[0]);
      hide CallOf, AfterCut;
      assert (a, r) !in u.data && forall e | e in u.entitled :: (e.1, e.2) != (a, r);
      RefusedKeysHoldNoData(u, root, steps[1..], a, r);
    }
  }

  /** A writer whose record was answered may write that key, and then the key holds data until it is
      forgotten; a writer that was not answered, or has died, may not. */
  lemma WriteNeedsAnswer(w: World, root: string, writer: Writer, c: Cut)
    requires c.CutRecord? && forall e | e in w.entitled :: e.0 != writer
    ensures var t, put := DoStep(w, root, IndexCall(writer, c)), PutData(writer, c.address, c.resource);
            && t.data == w.data
            && (CanStep(t, put) <==>
                  c.kept >= |CallOf(w.disk, root, c).puts| && CallOf(w.disk, root, c).reply.Ok?)
            && (CanStep(t, put) ==> DoStep(t, root, put).data == w.data + {(c.address, c.resource)})
            && !CanStep(DoStep(t, root, Die(writer)), put)
            && DoStep(t, root, Forget(c.address, c.resource)).data == w.data - {(c.address, c.resource)}
  {
    hide CallOf, AfterCut;
  }
}

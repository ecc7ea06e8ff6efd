/** A dictionary that keeps its keys in the order they first came: a later entry replaces an earlier
    one in the earlier one's place. */
module Dicts {
  import opened Wrappers

  datatype Keyed<+V> = Keyed(key: string, value: V)

  function Keys<V>(s: seq<Keyed<V>>): set<string> {
    if s == [] then {} else {s[0].key} + Keys(s[1..])
  }

  predicate Distinct<V>(s: seq<Keyed<V>>) {
    s == [] || (s[0].key !in Keys(s[1..]) && Distinct(s[1..]))
  }

  function Upsert<V>(s: seq<Keyed<V>>, e: Keyed<V>): (r: seq<Keyed<V>>)
    ensures Keys(r) == Keys(s) + {e.key}
    ensures Distinct(s) ==> Distinct(r)
  {
    if s == [] then [e] else if s[0].key == e.key then [e] + s[1..] else [s[0]] + Upsert(s[1..], e)
  }

  function UpsertAll<V>(s: seq<Keyed<V>>, more: seq<Keyed<V>>): (r: seq<Keyed<V>>)
    ensures Keys(r) == Keys(s) + Keys(more)
    ensures Distinct(s) ==> Distinct(r)
    decreases more
  {
    if more == [] then s else UpsertAll(Upsert(s, more[0]), more[1..])
  }

  /** What building a dictionary from the entries leaves. */
  function Collapse<V>(s: seq<Keyed<V>>): (r: seq<Keyed<V>>)
    ensures Keys(r) == Keys(s) && Distinct(r)
  {
    UpsertAll([], s)
  }

  // ----- first position, last value -----

  /** What a lookup finds. */
  function Find<V>(s: seq<Keyed<V>>, key: string): (r: Option<V>)
    ensures r.Some? <==> key in Keys(s)
  {
    if s == [] then None else if s[0].key == key then Some(s[0].value) else Find(s[1..], key)
  }

  function LastValue<V>(s: seq<Keyed<V>>, key: string): Option<V> {
    if s == [] then None
    else if s[|s| - 1].key == key then Some(s[|s| - 1].value)
    else LastValue(s[..|s| - 1], key)
  }

  /** Every key, where it first stands. */
  function FirstKeys<V>(s: seq<Keyed<V>>): (r: seq<string>) {
    if s == [] then []
    else
      var before := FirstKeys(s[..|s| - 1]);
      if s[|s| - 1].key in Keys(s[..|s| - 1]) then before else before + [s[|s| - 1].key]
  }

  function KeySeq<V>(s: seq<Keyed<V>>): (r: seq<string>)
    ensures |r| == |s|
  {
    if s == [] then [] else [s[0].key] + KeySeq(s[1..])
  }

  lemma {:induction false} UpsertAllEnd<V>(s: seq<Keyed<V>>, more: seq<Keyed<V>>, e: Keyed<V>)
    ensures UpsertAll(s, more + [e]) == Upsert(UpsertAll(s, more), e)
    decreases more
  {
    if more != [] {
      UpsertAllEnd(Upsert(s, more[0]), more[1..], e);
      assert (more + [e])[1..] == more[1..] + [e];
    }
  }

  lemma {:induction false} UpsertPlaces<V>(s: seq<Keyed<V>>, e: Keyed<V>)
    ensures KeySeq(Upsert(s, e)) == if e.key in Keys(s) then KeySeq(s) else KeySeq(s) + [e.key]
  {
    if s != [] {
      if s[0].key != e.key {
        UpsertPlaces(s[1..], e);
      }
    }
  }

  lemma {:induction false} UpsertFinds<V>(s: seq<Keyed<V>>, e: Keyed<V>, key: string)
    ensures Find(Upsert(s, e), key) == if key == e.key then Some(e.value) else Find(s, key)
  {
    if s != [] && s[0].key != e.key {
      UpsertFinds(s[1..], e, key);
    }
  }

  /** A collapsed list holds each key once, where it first stood, with the value that came last. */
  lemma {:induction false} CollapseIsFirstPlaceLastValue<V>(s: seq<Keyed<V>>, key: string)
    ensures KeySeq(Collapse(s)) == FirstKeys(s)
    ensures Find(Collapse(s), key) == LastValue(s, key)
    decreases |s|
  {
    if s != [] {
      var before, e := s[..|s| - 1], s[|s| - 1];
      assert s == before + [e];
      CollapseIsFirstPlaceLastValue(before, key);
      UpsertAllEnd([], before, e);
      UpsertPlaces(Collapse(before), e);
      UpsertFinds(Collapse(before), e, key);
    }
  }

  // ----- collapsing twice -----

  lemma {:induction false} UpsertCommutes<V>(s: seq<Keyed<V>>, d: Keyed<V>, e: Keyed<V>)
    requires d.key != e.key && e.key in Keys(s)
    ensures Upsert(Upsert(s, d), e) == Upsert(Upsert(s, e), d)
  {
    if s[0].key != d.key && s[0].key != e.key {
      UpsertCommutes(s[1..], d, e);
    }
  }

  lemma {:induction false} UpsertTwice<V>(s: seq<Keyed<V>>, d: Keyed<V>, e: Keyed<V>)
    requires d.key == e.key
    ensures Upsert(Upsert(s, d), e) == Upsert(s, e)
  {
    if s != [] && s[0].key != d.key {
      UpsertTwice(s[1..], d, e);
    }
  }

  lemma {:induction false} UpsertPasses<V>(s: seq<Keyed<V>>, more: seq<Keyed<V>>, e: Keyed<V>)
    requires e.key in Keys(s) && e.key !in Keys(more)
    ensures Upsert(UpsertAll(s, more), e) == UpsertAll(Upsert(s, e), more)
    decreases more
  {
    if more != [] {
      UpsertPasses(Upsert(s, more[0]), more[1..], e);
      UpsertCommutes(s, more[0], e);
    }
  }

  lemma {:induction false} UpsertThrough<V>(s: seq<Keyed<V>>, d: seq<Keyed<V>>, e: Keyed<V>)
    requires Distinct(d)
    ensures UpsertAll(s, Upsert(d, e)) == Upsert(UpsertAll(s, d), e)
    decreases d
  {
    if d == [] {
      assert UpsertAll(s, [e]) == UpsertAll(Upsert(s, e), []);
    } else if d[0].key == e.key {
      assert ([e] + d[1..])[1..] == d[1..];
      UpsertPasses(Upsert(s, d[0]), d[1..], e);
      UpsertTwice(s, d[0], e);
    } else {
      assert ([d[0]] + Upsert(d[1..], e))[1..] == Upsert(d[1..], e);
      UpsertThrough(Upsert(s, d[0]), d[1..], e);
    }
  }

  lemma {:induction false} UpsertAllThrough<V>(s: seq<Keyed<V>>, d: seq<Keyed<V>>, more: seq<Keyed<V>>)
    requires Distinct(d)
    ensures UpsertAll(s, UpsertAll(d, more)) == UpsertAll(UpsertAll(s, d), more)
    decreases more
  {
    if more != [] {
      UpsertAllThrough(s, Upsert(d, more[0]), more[1..]);
      UpsertThrough(s, d, more[0]);
    }
  }

  lemma {:induction false} UpsertAllConcat<V>(s: seq<Keyed<V>>, a: seq<Keyed<V>>, b: seq<Keyed<V>>)
    ensures UpsertAll(s, a + b) == UpsertAll(UpsertAll(s, a), b)
    decreases a
  {
    if a == [] {
      assert a + b == b;
    } else {
      assert (a + b)[1..] == a[1..] + b;
      UpsertAllConcat(Upsert(s, a[0]), a[1..], b);
    }
  }

  /** Collapsing a part before the whole changes nothing, on either side. */
  lemma CollapseAbsorbs<V>(a: seq<Keyed<V>>, b: seq<Keyed<V>>)
    ensures Collapse(Collapse(a) + b) == Collapse(a + b)
    ensures Collapse(a + Collapse(b)) == Collapse(a + b)
  {
    UpsertAllConcat([], a, b);
    UpsertAllConcat([], Collapse(a), b);
    UpsertAllConcat([], a, Collapse(b));
    UpsertAllThrough([], [], a);
    UpsertAllThrough(Collapse(a), [], b);
  }

  lemma DistinctStays<V>(s: seq<Keyed<V>>)
    requires Distinct(s)
    ensures Collapse(s) == s
  {
    DistinctAppends([], s);
    assert [] + s == s;
  }

  lemma {:induction false} DistinctAppends<V>(s: seq<Keyed<V>>, more: seq<Keyed<V>>)
    requires Distinct(more) && Keys(s) !! Keys(more)
    ensures UpsertAll(s, more) == s + more
    decreases more
  {
    if more == [] {
      assert s + more == s;
    } else {
      UpsertNew(s, more[0]);
      var next := Upsert(s, more[0]);
      DistinctAppends(next, more[1..]);
      assert more == [more[0]] + more[1..];
      Reassociate(s, more[0], more[1..]);
    }
  }

  lemma {:induction false} UpsertNew<V>(s: seq<Keyed<V>>, e: Keyed<V>)
    requires e.key !in Keys(s)
    ensures Upsert(s, e) == s + [e]
  {
    if s != [] {
      UpsertNew(s[1..], e);
    }
  }

  method Build<V>(s: seq<Keyed<V>>) returns (dict: seq<Keyed<V>>)
    ensures dict == Collapse(s)
  {
    dict := [];
    for i := 0 to |s|
      invariant UpsertAll(dict, s[i..]) == Collapse(s)
    {
      dict := Put(dict, s[i]);
      assert s[i..][1..] == s[i + 1..];
    }
  }

  lemma PutFurther<V>(dict: seq<Keyed<V>>, e: Keyed<V>, i: nat)
    requires i < |dict| && dict[i].key != e.key
    ensures dict[..i] + Upsert(dict[i..], e) == dict[..i + 1] + Upsert(dict[i + 1..], e)
  {
    var rest := dict[i..];
    assert rest[1..] == dict[i + 1..];
    assert dict[..i + 1] == dict[..i] + [dict[i]];
    var u := Upsert(rest[1..], e);
    assert Upsert(rest, e) == [dict[i]] + u;
    Reassociate(dict[..i], dict[i], u);
  }

  lemma Reassociate<T>(a: seq<T>, x: T, b: seq<T>)
    ensures a + ([x] + b) == a + [x] + b
  {
  }

  method Put<V>(dict: seq<Keyed<V>>, e: Keyed<V>) returns (r: seq<Keyed<V>>)
    ensures r == Upsert(dict, e)
  {
    for i := 0 to |dict|
      invariant Upsert(dict, e) == dict[..i] + Upsert(dict[i..], e)
    {
      if dict[i].key == e.key {
        return dict[..i] + [e] + dict[i + 1..];
      }
      PutFurther(dict, e, i);
    }
    r := dict + [e];
  }
}

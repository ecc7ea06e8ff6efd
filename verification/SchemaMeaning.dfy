/** What the words of a schema mean, said of the values themselves. */
module SchemaMeaning {
  import opened SchemaCheck

  // ----- equality -----

  /** What a JSON value stands for: numbers of any kind are numbers, and the members of an object have
      no order. */
  datatype Meaning =
    | Nothing
    | Number(x: real)
    | Text(s: string)
    | List(items: seq<Meaning>)
    | Map(members: map<string, Meaning>)

  function MeaningOf(a: Json): Meaning
    decreases a
  {
    match a
    case Null => Nothing
    case Bool(b) => Number(if b then 1.0 else 0.0)
    case Int(n) => Number(n as real)
    case Float(x) => Number(x)
    case Str(s) => Text(s)
    case Arr(xs) => List(seq(|xs|, i requires 0 <= i < |xs| => MeaningOf(xs[i])))
    case Obj(ms) => Map(map name | name in Names(ms) :: MeaningOf(ms[IndexOf(ms, name)].value))
  }

  function Names(members: seq<Member>): (r: set<string>)
    ensures forall name :: name in r <==> IndexOf(members, name) < |members|
  {
    var r := set m | m in members :: m.name;
    assert forall i | 0 <= i < |members| :: members[i] in members;
    r
  }

  /** Two JSON values are equal exactly when they stand for the same. */
  lemma {:induction false} EqualIsSameMeaning(a: Json, b: Json)
    ensures Equal(a, b) <==> MeaningOf(a) == MeaningOf(b)
    decreases a, 1
  {
    if a.Arr? && b.Arr? {
      ItemsAreEqual(a, b);
    } else if a.Obj? && b.Obj? {
      MembersAreEqual(a, b);
    } else {
      OtherwiseEqual(a, b);
    }
  }

  lemma {:induction false} ItemsAreEqual(a: Json, b: Json)
    requires a.Arr? && b.Arr?
    ensures Equal(a, b) <==> MeaningOf(a) == MeaningOf(b)
    decreases a, 0
  {
    if |a.items| == |b.items| {
      forall i | 0 <= i < |a.items|
        ensures Equal(a.items[i], b.items[i]) <==> MeaningOf(a.items[i]) == MeaningOf(b.items[i])
      {
        EqualIsSameMeaning(a.items[i], b.items[i]);
      }
      ListsEqual(a.items, b.items);
    } else {
      assert |MeaningOf(a).items| == |a.items| && |MeaningOf(b).items| == |b.items|;
    }
  }

  lemma {:induction false} MembersAreEqual(a: Json, b: Json)
    requires a.Obj? && b.Obj?
    ensures Equal(a, b) <==> MeaningOf(a) == MeaningOf(b)
    decreases a, 0
  {
    var ms := a.members;
    forall i | 0 <= i < |ms| && Has(b, ms[i].name)
      ensures Equal(ms[i].value, Get(b, ms[i].name)) <==> MeaningOf(ms[i].value) == MeaningOf(Get(b, ms[i].name))
    {
      EqualIsSameMeaning(ms[i].value, Get(b, ms[i].name));
    }
    ObjectsEqual(ms, b.members);
    hide MeaningOf;
  }

  lemma {:induction false} OtherwiseEqual(a: Json, b: Json)
    requires !(a.Arr? && b.Arr?) && !(a.Obj? && b.Obj?)
    ensures Equal(a, b) <==> MeaningOf(a) == MeaningOf(b)
  {
  }

  lemma {:induction false} ListsEqual(xs: seq<Json>, ys: seq<Json>)
    requires |xs| == |ys|
    ensures MeaningOf(Arr(xs)) == MeaningOf(Arr(ys)) <==>
            forall i | 0 <= i < |xs| :: MeaningOf(xs[i]) == MeaningOf(ys[i])
  {
    var a, b := MeaningOf(Arr(xs)).items, MeaningOf(Arr(ys)).items;
    assert |a| == |xs| && |b| == |ys|;
    assert forall i | 0 <= i < |xs| :: a[i] == MeaningOf(xs[i]) && b[i] == MeaningOf(ys[i]);
  }

  /** What an object holds under a name it has. */
  function Under(members: seq<Member>, name: string): Meaning
    requires name in Names(members)
  {
    MeaningOf(members[IndexOf(members, name)].value)
  }

  lemma {:induction false} MapsEqual(ms: seq<Member>, ns: seq<Member>)
    ensures MeaningOf(Obj(ms)) == MeaningOf(Obj(ns)) <==>
            Names(ms) == Names(ns) && forall name | name in Names(ms) * Names(ns) :: Under(ms, name) == Under(ns, name)
  {
    MapIs(ms);
    MapIs(ns);
    hide MeaningOf, Under, Names;
    var a, b := MeaningOf(Obj(ms)).members, MeaningOf(Obj(ns)).members;
    if Names(ms) == Names(ns) && forall name | name in Names(ms) * Names(ns) :: Under(ms, name) == Under(ns, name) {
      assert a == b;
    }
  }

  lemma {:induction false} MapIs(ms: seq<Member>)
    ensures MeaningOf(Obj(ms)).Map?
    ensures var a := MeaningOf(Obj(ms)).members;
            a.Keys == Names(ms) && forall name | name in Names(ms) :: name in a && a[name] == Under(ms, name)
  {
    var a := MeaningOf(Obj(ms)).members;
    assert forall name :: name in a <==> name in Names(ms);
  }

  /** The same, member by member. */
  lemma {:induction false} ObjectsEqual(ms: seq<Member>, ns: seq<Member>)
    ensures MeaningOf(Obj(ms)) == MeaningOf(Obj(ns)) <==>
            && (forall i | 0 <= i < |ms| ::
                  Has(Obj(ns), ms[i].name)
                  && (IndexOf(ms, ms[i].name) == i ==>
                        MeaningOf(ms[i].value) == MeaningOf(Get(Obj(ns), ms[i].name))))
            && forall i | 0 <= i < |ns| :: Has(Obj(ms), ns[i].name)
  {
    MapsEqual(ms, ns);
    NamesWithin(ms, ns);
    NamesWithin(ns, ms);
    hide MeaningOf;
    forall i | 0 <= i < |ms| && Has(Obj(ns), ms[i].name) && IndexOf(ms, ms[i].name) == i
      ensures MeaningOf(ms[i].value) == Under(ms, ms[i].name)
      ensures MeaningOf(Get(Obj(ns), ms[i].name)) == Under(ns, ms[i].name)
    {
    }
    forall name | name in Names(ms)
      ensures var i := IndexOf(ms, name); ms[i].name == name && IndexOf(ms, ms[i].name) == i
    {
    }
    hide Names;
  }

  lemma {:induction false} NamesWithin(ms: seq<Member>, ns: seq<Member>)
    ensures (forall i | 0 <= i < |ms| :: Has(Obj(ns), ms[i].name)) <==> Names(ms) <= Names(ns)
  {
    if forall i | 0 <= i < |ms| :: Has(Obj(ns), ms[i].name) {
      forall name | name in Names(ms)
        ensures name in Names(ns)
      {
        assert ms[IndexOf(ms, name)].name == name;
      }
    }
    assert forall i | 0 <= i < |ms| :: ms[i].name in Names(ms);
  }

  // ----- leaves -----

  /** Nothing pre-empts the types of this schema. */
  predicate Plain(schema: Json) {
    !(Has(schema, "anyOf") && Get(schema, "anyOf").Arr?) && !(Has(schema, "enum") && Get(schema, "enum").Arr?)
  }

  /** An enumeration accepts exactly the values that stand for what one of its members stands for; but a
      truth value is no number. */
  lemma EnumTells(schema: Json, members: seq<Json>, value: Json, path: Path)
    requires !(Has(schema, "anyOf") && Get(schema, "anyOf").Arr?)
    requires Has(schema, "enum") && Get(schema, "enum") == Arr(members)
    ensures Check(schema, value, path) ==
            if exists m | m in members :: m.Bool? == value.Bool? && MeaningOf(m) == MeaningOf(value) then []
            else [Problem(path, NotAMember)]
  {
    forall i | 0 <= i < |members|
      ensures SameValue(members[i], value) <==>
              members[i].Bool? == value.Bool? && MeaningOf(members[i]) == MeaningOf(value)
    {
      EqualIsSameMeaning(members[i], value);
    }
    hide MeaningOf, SameValue;
    if m :| m in members && m.Bool? == value.Bool? && MeaningOf(m) == MeaningOf(value) {
      var i :| 0 <= i < |members| && members[i] == m;
      assert SameValue(members[i], value);
    }
  }

  /** The words a value answers to. */
  function WordsOf(value: Json): set<string> {
    match value
    case Null => {"null"}
    case Bool(_) => {"boolean"}
    case Int(_) => {"integer", "number"}
    case Float(_) => {"number"}
    case Str(_) => {"string"}
    case Arr(_) => {"array"}
    case Obj(_) => {"object"}
  }

  const WORDS: set<string> := {"null", "boolean", "integer", "number", "string", "array", "object"}

  lemma MatchesIs(word: string, value: Json)
    ensures Matches(word, value) <==> word !in WORDS || word in WordsOf(value)
  {
    assert {"null", "boolean", "integer", "number", "string", "array", "object"} == WORDS;
  }

  /** The schema names this type, alone or in a list. */
  predicate Declares(schema: Json, word: string) {
    Has(schema, "type")
    && (Get(schema, "type") == Str(word) || (Get(schema, "type").Arr? && Str(word) in Get(schema, "type").items))
  }

  lemma {:induction false} StringsHave(items: seq<Json>, word: string)
    ensures word in Strings(items) <==> Str(word) in items
  {
    if items != [] {
      StringsHave(items[1..], word);
      assert items == [items[0]] + items[1..];
    }
  }

  lemma {:induction false} DeclaredIs(schema: Json, word: string)
    ensures word in DeclaredTypes(schema) <==> Declares(schema, word)
  {
    if Has(schema, "type") && Get(schema, "type").Arr? {
      StringsHave(Get(schema, "type").items, word);
    }
  }

  /** The schema demands this key. */
  predicate Demands(schema: Json, name: string) {
    Has(schema, "required") && Get(schema, "required").Arr? && Str(name) in Get(schema, "required").items
  }

  predicate Closes(schema: Json) {
    Has(schema, "additionalProperties") && Get(schema, "additionalProperties") == Bool(false)
  }

  /** A member of an object. */
  predicate IsMember(value: Json, m: Member) {
    value.Obj? && m in value.members
  }

  /** The schema says something of this key. */
  predicate Describes(schema: Json, m: Member) {
    Has(schema, "properties") && IsMember(Get(schema, "properties"), m)
  }

  ghost predicate HasKey(value: Json, name: string) {
    exists m :: IsMember(value, m) && m.name == name
  }

  /** What is wrong with an object: a key demanded and missing, a key nobody declared where the schema is
      closed, or what is wrong with a key that both have. */
  ghost predicate ObjectFault(schema: Json, value: Json, path: Path, p: Problem) {
    || (exists name: string ::
          Demands(schema, name) && !HasKey(value, name) && p == Problem(path + [Key(name)], MissingKey))
    || (Closes(schema)
        && exists m: Member :: IsMember(value, m) && p == Problem(path + [Key(m.name)], ExtraKey)
                               && forall d: Member :: Describes(schema, d) ==> d.name != m.name)
    || exists d: Member :: Describes(schema, d) && d.value.Obj? && Has(value, d.name)
                           && p in Check(d.value, Get(value, d.name), path + [Key(d.name)])
  }

  lemma HasIsKey(value: Json, name: string)
    ensures Has(value, name) <==> HasKey(value, name)
  {
    if Has(value, name) {
      assert IsMember(value, value.members[IndexOf(value.members, name)]);
    }
  }

  lemma {:induction false} MissingHas(required: seq<Json>, value: Json, path: Path, p: Problem)
    ensures p in Missing(required, value, path) <==>
            exists r | r in required :: r.Str? && !Has(value, r.s) && p == Problem(path + [Key(r.s)], MissingKey)
  {
    if required != [] {
      MissingHas(required[1..], value, path, p);
      assert required == [required[0]] + required[1..];
      hide Has;
    }
  }

  lemma {:induction false} ExtraHas(members: seq<Member>, properties: seq<Member>, path: Path, p: Problem)
    ensures p in Extra(members, properties, path) <==>
            exists m | m in members :: !HasMember(properties, m.name) && p == Problem(path + [Key(m.name)], ExtraKey)
  {
    if members != [] {
      ExtraHas(members[1..], properties, path, p);
      assert members == [members[0]] + members[1..];
      hide HasMember;
    }
  }

  lemma {:induction false} PropertiesHave(schema: Json, value: Json, path: Path, k: nat, p: Problem)
    requires value.Obj?
    ensures p in PropertyProblems(schema, value, path, k) <==>
            var properties := MembersAt(schema, "properties");
            exists i | k <= i < |properties| ::
              && properties[i].value.Obj? && Has(value, properties[i].name)
              && p in Check(properties[i].value, Get(value, properties[i].name), path + [Key(properties[i].name)])
    decreases |MembersAt(schema, "properties")| - k
  {
    hide Has, Check;
    if k < |MembersAt(schema, "properties")| {
      PropertiesHave(schema, value, path, k + 1, p);
    }
  }

  lemma {:induction false} ItemsHave(schema: Json, value: Json, path: Path, k: nat, p: Problem)
    requires value.Arr?
    ensures p in ItemProblems(schema, value, path, k) <==>
            && Has(schema, "items") && Get(schema, "items").Obj?
            && exists i | k <= i < |value.items| :: p in Check(Get(schema, "items"), value.items[i], path + [At(i)])
    decreases |value.items| - k
  {
    hide Has, Check;
    if Has(schema, "items") && Get(schema, "items").Obj? && k < |value.items| {
      ItemsHave(schema, value, path, k + 1, p);
    }
  }

  /** All that is reported for an object: the keys it lacks, those it may not have, and what is wrong
      with the others. */
  lemma {:induction false} ObjectHas(schema: Json, value: Json, path: Path, p: Problem)
    requires value.Obj?
    ensures p in ObjectProblems(schema, value, path) <==> ObjectFault(schema, value, path, p)
  {
    MissingIs(schema, value, path, p);
    ExtraIs(schema, value, path, p);
    PropertiesAre(schema, value, path, p);
    hide Missing, Extra, PropertyProblems, Check, Has, Demands, HasKey, IsMember, Describes, MembersAt, RequiredAt;
  }

  lemma {:induction false} MissingIs(schema: Json, value: Json, path: Path, p: Problem)
    requires value.Obj?
    ensures p in Missing(RequiredAt(schema), value, path) <==>
            exists name: string ::
              Demands(schema, name) && !HasKey(value, name) && p == Problem(path + [Key(name)], MissingKey)
  {
    MissingHas(RequiredAt(schema), value, path, p);
    assert forall name: string :: Demands(schema, name) <==> Str(name) in RequiredAt(schema);
    forall name: string
      ensures Has(value, name) <==> HasKey(value, name)
    {
      HasIsKey(value, name);
    }
    hide Missing, Has, HasKey, RequiredAt, Demands;
    if name: string :| Demands(schema, name) && !HasKey(value, name) && p == Problem(path + [Key(name)], MissingKey) {
      assert Str(name).s == name;
    }
  }

  lemma {:induction false} ExtraIs(schema: Json, value: Json, path: Path, p: Problem)
    requires value.Obj?
    ensures p in Extra(value.members, MembersAt(schema, "properties"), path) <==>
            exists m: Member ::
              && IsMember(value, m) && p == Problem(path + [Key(m.name)], ExtraKey)
              && forall d: Member :: Describes(schema, d) ==> d.name != m.name
  {
    var properties := MembersAt(schema, "properties");
    ExtraHas(value.members, properties, path, p);
    forall name: string
      ensures HasMember(properties, name) <==> exists d: Member :: Describes(schema, d) && d.name == name
    {
      HasIsKey(Obj(properties), name);
      assert forall d: Member :: IsMember(Obj(properties), d) <==> Describes(schema, d);
    }
    hide Extra, HasMember, Describes, MembersAt;
  }

  lemma {:induction false} PropertiesAre(schema: Json, value: Json, path: Path, p: Problem)
    requires value.Obj?
    ensures p in PropertyProblems(schema, value, path, 0) <==>
            exists d: Member ::
              && Describes(schema, d) && d.value.Obj? && Has(value, d.name)
              && p in Check(d.value, Get(value, d.name), path + [Key(d.name)])
  {
    var properties := MembersAt(schema, "properties");
    PropertiesHave(schema, value, path, 0, p);
    assert forall d: Member :: Describes(schema, d) <==> d in properties;
    hide Has, Check, PropertyProblems, Describes, MembersAt;
    if d: Member :| Describes(schema, d) && d.value.Obj? && Has(value, d.name)
                    && p in Check(d.value, Get(value, d.name), path + [Key(d.name)]) {
      var i :| 0 <= i < |properties| && properties[i] == d;
    }
  }

  // ----- the whole of a check -----

  /** What is wrong with an array: what is wrong with one of its items. */
  ghost predicate ItemFault(schema: Json, value: Json, path: Path, p: Problem)
    requires value.Arr?
  {
    && Has(schema, "items") && Get(schema, "items").Obj?
    && exists i | 0 <= i < |value.items| :: p in Check(Get(schema, "items"), value.items[i], path + [At(i)])
  }

  /** None of the types the schema names is a type of the value. */
  ghost predicate Misfits(schema: Json, value: Json) {
    (exists word: string :: Declares(schema, word))
    && forall word: string | Declares(schema, word) :: word in WORDS && word !in WordsOf(value)
  }

  lemma MisfitIs(schema: Json, value: Json)
    ensures var types := DeclaredTypes(schema);
            Misfits(schema, value) <==> types != [] && !exists t | t in types :: Matches(t, value)
    ensures "object" in DeclaredTypes(schema) <==> Declares(schema, "object")
    ensures "array" in DeclaredTypes(schema) <==> Declares(schema, "array")
  {
    var types := DeclaredTypes(schema);
    forall word: string
      ensures word in types <==> Declares(schema, word)
      ensures Matches(word, value) <==> word !in WORDS || word in WordsOf(value)
    {
      DeclaredIs(schema, word);
      MatchesIs(word, value);
    }
    hide DeclaredTypes, Declares, Matches, WordsOf, WORDS;
    if types != [] {
      assert types[0] in types;
    }
  }

  /** All that is reported where neither alternatives nor an enumeration pre-empt the types. */
  lemma {:induction false} PlainCheckTells(schema: Json, value: Json, path: Path, p: Problem)
    requires Plain(schema)
    ensures p in Check(schema, value, path) <==>
            if Misfits(schema, value) then p == Problem(path, WrongType)
            else if Declares(schema, "object") && value.Obj? then ObjectFault(schema, value, path, p)
            else Declares(schema, "array") && value.Arr? && ItemFault(schema, value, path, p)
  {
    MisfitIs(schema, value);
    if value.Obj? {
      ObjectHas(schema, value, path, p);
    } else if value.Arr? {
      ItemsHave(schema, value, path, 0, p);
    }
    hide DeclaredTypes, Declares, Matches, ObjectProblems, ItemProblems, ObjectFault, Misfits;
  }

  /** A problem is reported at its place or below; one about a key is below. */
  lemma {:induction false} ProblemsAreWithin(schema: Json, value: Json, path: Path, p: Problem)
    requires p in Check(schema, value, path)
    ensures path <= p.path
    ensures p.fault.ExtraKey? || p.fault.MissingKey? ==> path < p.path
    decreases schema
  {
    if Plain(schema) {
      PlainCheckTells(schema, value, path, p);
      if !Misfits(schema, value) {
        if Declares(schema, "object") && value.Obj? {
          ObjectFaultIsBelow(schema, value, path, p);
        } else {
          ItemFaultIsBelow(schema, value, path, p);
        }
      }
    }
    hide Misfits, Declares, ObjectFault, Matches, SameValue, DeclaredTypes, ObjectProblems, ItemProblems;
  }

  lemma {:induction false} ObjectFaultIsBelow(schema: Json, value: Json, path: Path, p: Problem)
    requires ObjectFault(schema, value, path, p)
    ensures path < p.path
    decreases schema, 0
  {
    hide Check, Has;
    if d: Member :| Describes(schema, d) && d.value.Obj? && Has(value, d.name)
                    && p in Check(d.value, Get(value, d.name), path + [Key(d.name)]) {
      ProblemsAreWithin(d.value, Get(value, d.name), path + [Key(d.name)], p);
    }
  }

  lemma {:induction false} ItemFaultIsBelow(schema: Json, value: Json, path: Path, p: Problem)
    requires value.Arr? && ItemFault(schema, value, path, p)
    ensures path < p.path
    decreases schema, 0
  {
    hide Check;
    var i :| 0 <= i < |value.items| && p in Check(Get(schema, "items"), value.items[i], path + [At(i)]);
    ProblemsAreWithin(Get(schema, "items"), value.items[i], path + [At(i)], p);
  }

  /** A value is of the wrong type exactly when every type the schema names is one of the seven words and
      none of them is a word for the value; a word nobody knows refuses nothing. */
  lemma {:induction false} TypesDecide(schema: Json, value: Json, path: Path)
    requires Plain(schema)
    ensures Problem(path, WrongType) in Check(schema, value, path) <==> Misfits(schema, value)
    ensures Misfits(schema, value) ==> Check(schema, value, path) == [Problem(path, WrongType)]
  {
    var p := Problem(path, WrongType);
    PlainCheckTells(schema, value, path, p);
    MisfitIs(schema, value);
    if !Misfits(schema, value) && p in Check(schema, value, path) {
      if Declares(schema, "object") && value.Obj? {
        ObjectFaultIsBelow(schema, value, path, p);
      } else {
        ItemFaultIsBelow(schema, value, path, p);
      }
    }
    hide Declares, Matches, DeclaredTypes, ObjectProblems, ItemProblems, ObjectFault, ItemFault;
  }

  /** The seven words, one by one. */
  lemma WordsMean(value: Json)
    ensures "null" in WordsOf(value) <==> value == Null
    ensures "boolean" in WordsOf(value) <==> value.Bool?
    ensures "integer" in WordsOf(value) <==> value.Int?
    ensures "number" in WordsOf(value) <==> value.Int? || value.Float?
    ensures "string" in WordsOf(value) <==> value.Str?
    ensures "array" in WordsOf(value) <==> value.Arr?
    ensures "object" in WordsOf(value) <==> value.Obj?
  {
    assert |"null"| == 4 && |"boolean"| == 7 && |"integer"| == 7 && |"number"| == 6;
    assert |"string"| == 6 && |"array"| == 5 && |"object"| == 6;
  }

  /** A key is refused as extra exactly where the schema closes itself, and as missing exactly where it
      demands the key. */
  lemma {:induction false} KeysDecide(schema: Json, value: Json, path: Path, name: string)
    requires Plain(schema) && Declares(schema, "object") && value.Obj?
    ensures Problem(path + [Key(name)], ExtraKey) in Check(schema, value, path) <==>
            && Closes(schema) && HasKey(value, name)
            && forall d: Member :: Describes(schema, d) ==> d.name != name
    ensures Problem(path + [Key(name)], MissingKey) in Check(schema, value, path) <==>
            Demands(schema, name) && !HasKey(value, name)
  {
    assert !Misfits(schema, value);
    var extra, missing := Problem(path + [Key(name)], ExtraKey), Problem(path + [Key(name)], MissingKey);
    PlainCheckTells(schema, value, path, extra);
    PlainCheckTells(schema, value, path, missing);
    OneKey(path, name);
    KeyIsBelow(schema, value, path, name, extra);
    KeyIsBelow(schema, value, path, name, missing);
    hide Check, Has, Declares, Plain, Describes, Closes, Demands;
  }

  lemma OneKey(path: Path, name: string)
    ensures forall other: string :: path + [Key(name)] == path + [Key(other)] ==> name == other
  {
    forall other: string | path + [Key(name)] == path + [Key(other)]
      ensures name == other
    {
      assert (path + [Key(name)])[|path|] == (path + [Key(other)])[|path|];
    }
  }

  /** What is reported about the key itself is not reported by the check of its value. */
  lemma {:induction false} KeyIsBelow(schema: Json, value: Json, path: Path, name: string, p: Problem)
    requires p.path == path + [Key(name)] && (p.fault.ExtraKey? || p.fault.MissingKey?)
    ensures !exists d: Member ::
              && Describes(schema, d) && d.value.Obj? && Has(value, d.name)
              && p in Check(d.value, Get(value, d.name), path + [Key(d.name)])
  {
    hide Check, Has, Describes;
    if d: Member :| Describes(schema, d) && d.value.Obj? && Has(value, d.name)
                    && p in Check(d.value, Get(value, d.name), path + [Key(d.name)]) {
      ProblemsAreWithin(d.value, Get(value, d.name), path + [Key(d.name)], p);
    }
  }
}

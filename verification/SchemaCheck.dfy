/** Does a document satisfy a schema?  The recursive checker, and the relation it decides. */
module SchemaCheck {
  import opened Wrappers

  /** A JSON value; an object keeps its members in order. */
  datatype Json =
    | Null
    | Bool(b: bool)
    | Int(n: int)
    | Float(x: real)
    | Str(s: string)
    | Arr(items: seq<Json>)
    | Obj(members: seq<Member>)

  datatype Member = Member(name: string, value: Json)

  datatype Step = Key(name: string) | At(index: nat)

  type Path = seq<Step>

  datatype Fault = NotAMember | WrongType | NoAlternative | MissingKey | ExtraKey

  datatype Problem = Problem(path: Path, fault: Fault)

  // ----- reading values -----

  /** Where a name stands among the members, or their number when it is absent. */
  function IndexOf(members: seq<Member>, name: string): (k: nat)
    ensures k <= |members| && (k < |members| ==> members[k].name == name)
    ensures forall j | 0 <= j < k :: members[j].name != name
  {
    if members == [] || members[0].name == name then 0 else 1 + IndexOf(members[1..], name)
  }

  predicate Has(value: Json, name: string) {
    value.Obj? && IndexOf(value.members, name) < |value.members|
  }

  function Get(value: Json, name: string): (r: Json)
    requires Has(value, name)
    ensures r < value
  {
    value.members[IndexOf(value.members, name)].value
  }

  function ListAt(schema: Json, name: string): (r: Option<seq<Json>>)
    ensures r.Some? ==> forall i | 0 <= i < |r.value| :: r.value[i] < schema
  {
    if Has(schema, name) && Get(schema, name).Arr? then Some(Get(schema, name).items) else None
  }

  function MembersAt(schema: Json, name: string): seq<Member> {
    if Has(schema, name) && Get(schema, name).Obj? then Get(schema, name).members else []
  }

  /** Python's `==` on JSON values: numbers compare across int, float and bool; lists by element;
      objects as maps. */
  predicate Equal(a: Json, b: Json)
    decreases a
  {
    match a
    case Null => b.Null?
    case Str(s) => b == Str(s)
    case Arr(xs) =>
      b.Arr? && |b.items| == |xs| && forall i | 0 <= i < |xs| :: Equal(xs[i], b.items[i])
    case Obj(ms) =>
      b.Obj?
      && (forall i | 0 <= i < |ms| ::
            Has(b, ms[i].name) && (IndexOf(ms, ms[i].name) == i ==> Equal(ms[i].value, Get(b, ms[i].name))))
      && forall i | 0 <= i < |b.members| :: Has(a, b.members[i].name)
    case _ => Number(a).Some? && Number(a) == Number(b)
  }

  function Number(a: Json): Option<real> {
    match a
    case Bool(b) => Some(if b then 1.0 else 0.0)
    case Int(n) => Some(n as real)
    case Float(x) => Some(x)
    case _ => None
  }

  /** `===` as the ports compare: a bool is never a number at the top. */
  predicate SameValue(member: Json, value: Json) {
    member.Bool? == value.Bool? && Equal(member, value)
  }

  function Strings(items: seq<Json>): seq<string> {
    if items == [] then []
    else (if items[0].Str? then [items[0].s] else []) + Strings(items[1..])
  }

  function DeclaredTypes(schema: Json): seq<string> {
    if !Has(schema, "type") then []
    else
      var declared := Get(schema, "type");
      if declared.Str? then [declared.s] else if declared.Arr? then Strings(declared.items) else []
  }

  predicate Matches(declared: string, value: Json) {
    if declared == "boolean" then value.Bool?
    else if declared == "string" then value.Str?
    else if declared == "number" then value.Int? || value.Float?
    else if declared == "integer" then value.Int?
    else if declared == "null" then value.Null?
    else if declared == "array" then value.Arr?
    else if declared == "object" then value.Obj?
    else true
  }

  predicate Closed(schema: Json) {
    Has(schema, "additionalProperties") && Get(schema, "additionalProperties") == Bool(false)
  }

  predicate HasMember(members: seq<Member>, name: string) {
    IndexOf(members, name) < |members|
  }

  // ----- the relation -----

  /** What the supported subset of a schema asks of a value: alternatives first, then an enum, then
      the declared types with what they carry. */
  predicate Satisfies(schema: Json, value: Json)
    decreases schema, 1
  {
    var alternatives := ListAt(schema, "anyOf");
    if alternatives.Some? then
      exists i | 0 <= i < |alternatives.value| ::
        alternatives.value[i].Obj? && Satisfies(alternatives.value[i], value)
    else
      var enumeration := ListAt(schema, "enum");
      if enumeration.Some? then exists i | 0 <= i < |enumeration.value| :: SameValue(enumeration.value[i], value)
      else
        var types := DeclaredTypes(schema);
        types != [] ==>
          && (exists t | t in types :: Matches(t, value))
          && ("object" in types && value.Obj? ==> SatisfiesObject(schema, value))
          && ("array" in types && value.Arr? ==> SatisfiesItems(schema, value))
  }

  predicate SatisfiesObject(schema: Json, value: Json)
    requires value.Obj?
    decreases schema, 0
  {
    var properties := MembersAt(schema, "properties");
    var required := ListAt(schema, "required");
    && (required.Some? ==>
          forall i | 0 <= i < |required.value| && required.value[i].Str? :: Has(value, required.value[i].s))
    && (forall i | 0 <= i < |properties| && properties[i].value.Obj? && Has(value, properties[i].name) ::
          Satisfies(properties[i].value, Get(value, properties[i].name)))
    && (Closed(schema) ==> forall i | 0 <= i < |value.members| :: HasMember(properties, value.members[i].name))
  }

  predicate SatisfiesItems(schema: Json, value: Json)
    requires value.Arr?
    decreases schema, 0
  {
    Has(schema, "items") && Get(schema, "items").Obj? ==>
      forall i | 0 <= i < |value.items| :: Satisfies(Get(schema, "items"), value.items[i])
  }

  // ----- what the checker reports -----

  function Check(schema: Json, value: Json, path: Path): seq<Problem>
    decreases schema, 3
  {
    var alternatives := ListAt(schema, "anyOf");
    if alternatives.Some? then
      if exists i | 0 <= i < |alternatives.value| ::
           alternatives.value[i].Obj? && Check(alternatives.value[i], value, path) == []
      then [] else [Problem(path, NoAlternative)]
    else
      var enumeration := ListAt(schema, "enum");
      if enumeration.Some? then
        if exists i | 0 <= i < |enumeration.value| :: SameValue(enumeration.value[i], value) then []
        else [Problem(path, NotAMember)]
      else
        var types := DeclaredTypes(schema);
        if types == [] then []
        else if !exists t | t in types :: Matches(t, value) then [Problem(path, WrongType)]
        else if "object" in types && value.Obj? then ObjectProblems(schema, value, path)
        else if "array" in types && value.Arr? then ItemProblems(schema, value, path, 0)
        else []
  }

  function RequiredAt(schema: Json): seq<Json> {
    var required := ListAt(schema, "required");
    if required.Some? then required.value else []
  }

  function Missing(required: seq<Json>, value: Json, path: Path): seq<Problem> {
    if required == [] then []
    else
      (if required[0].Str? && !Has(value, required[0].s)
       then [Problem(path + [Key(required[0].s)], MissingKey)]
       else [])
      + Missing(required[1..], value, path)
  }

  function Extra(members: seq<Member>, properties: seq<Member>, path: Path): seq<Problem> {
    if members == [] then []
    else
      (if HasMember(properties, members[0].name) then [] else [Problem(path + [Key(members[0].name)], ExtraKey)])
      + Extra(members[1..], properties, path)
  }

  function ObjectProblems(schema: Json, value: Json, path: Path): seq<Problem>
    requires value.Obj?
    decreases schema, 2
  {
    Missing(RequiredAt(schema), value, path)
    + PropertyProblems(schema, value, path, 0)
    + if Closed(schema) then Extra(value.members, MembersAt(schema, "properties"), path) else []
  }

  function PropertyProblems(schema: Json, value: Json, path: Path, k: nat): seq<Problem>
    requires value.Obj?
    decreases schema, 1, |MembersAt(schema, "properties")| - k
  {
    var properties := MembersAt(schema, "properties");
    if k >= |properties| then []
    else
      (if properties[k].value.Obj? && Has(value, properties[k].name) then
         Check(properties[k].value, Get(value, properties[k].name), path + [Key(properties[k].name)])
       else [])
      + PropertyProblems(schema, value, path, k + 1)
  }

  function ItemProblems(schema: Json, value: Json, path: Path, k: nat): seq<Problem>
    requires value.Arr?
    decreases schema, 1, |value.items| - k
  {
    if !Has(schema, "items") || !Get(schema, "items").Obj? || k >= |value.items| then []
    else Check(Get(schema, "items"), value.items[k], path + [At(k)]) + ItemProblems(schema, value, path, k + 1)
  }

  // ----- the checker, growing its list of problems -----

  method CheckValue(schema: Json, value: Json, path: Path) returns (problems: seq<Problem>)
    ensures problems == Check(schema, value, path)
    decreases schema, 3
  {
    hide Matches, SameValue, DeclaredTypes, ObjectProblems, ItemProblems, ListAt;
    var alternatives := ListAt(schema, "anyOf");
    if alternatives.Some? {
      for i := 0 to |alternatives.value|
        invariant forall j | 0 <= j < i && alternatives.value[j].Obj? :: Check(alternatives.value[j], value, path) != []
      {
        if alternatives.value[i].Obj? {
          var rejected := CheckValue(alternatives.value[i], value, path);
          if rejected == [] {
            return [];
          }
        }
      }
      return [Problem(path, NoAlternative)];
    }
    var enumeration := ListAt(schema, "enum");
    if enumeration.Some? {
      if exists i | 0 <= i < |enumeration.value| :: SameValue(enumeration.value[i], value) {
        return [];
      }
      return [Problem(path, NotAMember)];
    }
    var types := DeclaredTypes(schema);
    if types == [] {
      return [];
    }
    if !exists t | t in types :: Matches(t, value) {
      return [Problem(path, WrongType)];
    }
    if "object" in types && value.Obj? {
      problems := CheckObject(schema, value, path);
    } else if "array" in types && value.Arr? {
      problems := CheckItems(schema, value, path);
    } else {
      problems := [];
    }
  }

  lemma MissingFrom(required: seq<Json>, value: Json, path: Path, i: nat)
    requires i < |required|
    ensures Missing(required[i..], value, path) ==
            (if required[i].Str? && !Has(value, required[i].s) then [Problem(path + [Key(required[i].s)], MissingKey)]
             else []) + Missing(required[i + 1..], value, path)
  {
    assert required[i..][1..] == required[i + 1..];
  }

  lemma ExtraFrom(members: seq<Member>, properties: seq<Member>, path: Path, i: nat)
    requires i < |members|
    ensures Extra(members[i..], properties, path) ==
            (if HasMember(properties, members[i].name) then [] else [Problem(path + [Key(members[i].name)], ExtraKey)])
            + Extra(members[i + 1..], properties, path)
  {
    assert members[i..][1..] == members[i + 1..];
  }

  method CheckRequired(required: seq<Json>, value: Json, path: Path) returns (problems: seq<Problem>)
    ensures problems == Missing(required, value, path)
  {
    hide Missing, Has;
    problems := [];
    assert required[0..] == required;
    for i := 0 to |required|
      invariant Missing(required, value, path) == problems + Missing(required[i..], value, path)
    {
      MissingFrom(required, value, path, i);
      if required[i].Str? && !Has(value, required[i].s) {
        problems := problems + [Problem(path + [Key(required[i].s)], MissingKey)];
      }
    }
    assert required[|required|..] == [];
    MissingNone(value, path);
  }

  lemma MissingNone(value: Json, path: Path)
    ensures Missing([], value, path) == []
  {
  }

  lemma ExtraNone(properties: seq<Member>, path: Path)
    ensures Extra([], properties, path) == []
  {
  }

  method CheckExtra(members: seq<Member>, properties: seq<Member>, path: Path) returns (problems: seq<Problem>)
    ensures problems == Extra(members, properties, path)
  {
    hide Extra, HasMember;
    problems := [];
    assert members[0..] == members;
    for i := 0 to |members|
      invariant Extra(members, properties, path) == problems + Extra(members[i..], properties, path)
    {
      ExtraFrom(members, properties, path, i);
      if !HasMember(properties, members[i].name) {
        problems := problems + [Problem(path + [Key(members[i].name)], ExtraKey)];
      }
    }
    assert members[|members|..] == [];
    ExtraNone(properties, path);
  }

  method CheckObject(schema: Json, value: Json, path: Path) returns (problems: seq<Problem>)
    requires value.Obj?
    ensures problems == ObjectProblems(schema, value, path)
    decreases schema, 2
  {
    hide Missing, Extra, Check, Closed;
    var properties := MembersAt(schema, "properties");
    problems := CheckRequired(RequiredAt(schema), value, path);
    ghost var missing := problems;
    for i := 0 to |properties|
      invariant missing + PropertyProblems(schema, value, path, 0) ==
                problems + PropertyProblems(schema, value, path, i)
    {
      if properties[i].value.Obj? && Has(value, properties[i].name) {
        var more := CheckValue(properties[i].value, Get(value, properties[i].name), path + [Key(properties[i].name)]);
        problems := problems + more;
      }
    }
    if Closed(schema) {
      var extra := CheckExtra(value.members, properties, path);
      problems := problems + extra;
    }
  }

  method CheckItems(schema: Json, value: Json, path: Path) returns (problems: seq<Problem>)
    requires value.Arr?
    ensures problems == ItemProblems(schema, value, path, 0)
    decreases schema, 2
  {
    problems := [];
    if !Has(schema, "items") || !Get(schema, "items").Obj? {
      return;
    }
    for i := 0 to |value.items|
      invariant problems + ItemProblems(schema, value, path, i) == ItemProblems(schema, value, path, 0)
    {
      var more := CheckValue(Get(schema, "items"), value.items[i], path + [At(i)]);
      problems := problems + more;
    }
  }

  // ----- the checker decides the relation -----

  lemma {:induction false} MissingDecides(required: seq<Json>, value: Json, path: Path)
    ensures Missing(required, value, path) == [] <==>
            forall i | 0 <= i < |required| && required[i].Str? :: Has(value, required[i].s)
  {
    if required != [] {
      MissingDecides(required[1..], value, path);
      assert forall i | 1 <= i < |required| :: required[i] == required[1..][i - 1];
    }
  }

  lemma {:induction false} ExtraDecides(members: seq<Member>, properties: seq<Member>, path: Path)
    ensures Extra(members, properties, path) == [] <==>
            forall i | 0 <= i < |members| :: HasMember(properties, members[i].name)
  {
    if members != [] {
      ExtraDecides(members[1..], properties, path);
      assert forall i | 1 <= i < |members| :: members[i] == members[1..][i - 1];
    }
  }

  /** No problem is reported exactly when the value satisfies the schema, at any depth and under any
      path. */
  lemma {:induction false} CheckDecides(schema: Json, value: Json, path: Path)
    ensures Check(schema, value, path) == [] <==> Satisfies(schema, value)
    decreases schema, 3
  {
    hide Matches, SameValue, DeclaredTypes, ObjectProblems, SatisfiesObject, ListAt;
    var alternatives := ListAt(schema, "anyOf");
    if alternatives.Some? {
      forall i | 0 <= i < |alternatives.value| && alternatives.value[i].Obj?
        ensures Check(alternatives.value[i], value, path) == [] <==> Satisfies(alternatives.value[i], value)
      {
        CheckDecides(alternatives.value[i], value, path);
      }
    } else if ListAt(schema, "enum").None? {
      if value.Obj? {
        ObjectDecides(schema, value, path);
      } else if value.Arr? {
        ItemsDecide(schema, value, path, 0);
      }
    }
  }

  lemma {:induction false} ObjectDecides(schema: Json, value: Json, path: Path)
    requires value.Obj?
    ensures ObjectProblems(schema, value, path) == [] <==> SatisfiesObject(schema, value)
    decreases schema, 2
  {
    hide Has, Check, Satisfies, PropertyProblems, Missing, Extra, HasMember;
    MissingDecides(RequiredAt(schema), value, path);
    ExtraDecides(value.members, MembersAt(schema, "properties"), path);
    PropertiesDecide(schema, value, path, 0);
  }

  lemma {:induction false} PropertiesDecide(schema: Json, value: Json, path: Path, k: nat)
    requires value.Obj?
    ensures PropertyProblems(schema, value, path, k) == [] <==>
            var properties := MembersAt(schema, "properties");
            forall i | k <= i < |properties| && properties[i].value.Obj? && Has(value, properties[i].name) ::
              Satisfies(properties[i].value, Get(value, properties[i].name))
    decreases schema, 1, |MembersAt(schema, "properties")| - k
  {
    var properties := MembersAt(schema, "properties");
    hide Has, Check, Satisfies;
    if k < |properties| {
      PropertiesDecide(schema, value, path, k + 1);
      if properties[k].value.Obj? && Has(value, properties[k].name) {
        CheckDecides(properties[k].value, Get(value, properties[k].name), path + [Key(properties[k].name)]);
      }
    }
  }

  lemma {:induction false} ItemsDecide(schema: Json, value: Json, path: Path, k: nat)
    requires value.Arr?
    ensures ItemProblems(schema, value, path, k) == [] <==>
            (Has(schema, "items") && Get(schema, "items").Obj? ==>
               forall i | k <= i < |value.items| :: Satisfies(Get(schema, "items"), value.items[i]))
    decreases schema, 1, |value.items| - k
  {
    hide Has, Check, Satisfies;
    if Has(schema, "items") && Get(schema, "items").Obj? && k < |value.items| {
      ItemsDecide(schema, value, path, k + 1);
      CheckDecides(Get(schema, "items"), value.items[k], path + [At(k)]);
    }
  }

  // ----- paths only prefix -----

  function Under(path: Path, problems: seq<Problem>): (r: seq<Problem>)
    ensures |r| == |problems|
  {
    seq(|problems|, i requires 0 <= i < |problems| => Problem(path + problems[i].path, problems[i].fault))
  }

  lemma UnderConcat(path: Path, p: seq<Problem>, q: seq<Problem>)
    ensures Under(path, p + q) == Under(path, p) + Under(path, q)
  {
  }

  lemma UnderNone(path: Path)
    ensures Under(path, []) == []
  {
  }

  lemma OneUnder(path: Path, step: Step, fault: Fault)
    ensures Under(path, [Problem([] + [step], fault)]) == [Problem(path + [step], fault)]
  {
    assert path + ([] + [step]) == path + [step];
  }

  lemma UnderTwice(path: Path, inner: Path, p: seq<Problem>)
    ensures Under(path, Under(inner, p)) == Under(path + inner, p)
  {
    forall i | 0 <= i < |p|
      ensures Under(path, Under(inner, p))[i] == Under(path + inner, p)[i]
    {
      assert path + (inner + p[i].path) == path + inner + p[i].path;
    }
  }

  lemma {:induction false} MissingUnder(required: seq<Json>, value: Json, path: Path)
    ensures Missing(required, value, path) == Under(path, Missing(required, value, []))
  {
    if required != [] {
      MissingUnder(required[1..], value, path);
      var rest := Missing(required[1..], value, []);
      if required[0].Str? && !Has(value, required[0].s) {
        OneUnder(path, Key(required[0].s), MissingKey);
        UnderConcat(path, [Problem([] + [Key(required[0].s)], MissingKey)], rest);
      } else {
        UnderConcat(path, [], rest);
      }
    }
  }

  lemma {:induction false} ExtraUnder(members: seq<Member>, properties: seq<Member>, path: Path)
    ensures Extra(members, properties, path) == Under(path, Extra(members, properties, []))
  {
    if members != [] {
      ExtraUnder(members[1..], properties, path);
      var rest := Extra(members[1..], properties, []);
      if HasMember(properties, members[0].name) {
        UnderConcat(path, [], rest);
      } else {
        OneUnder(path, Key(members[0].name), ExtraKey);
        UnderConcat(path, [Problem([] + [Key(members[0].name)], ExtraKey)], rest);
      }
    }
  }

  /** The problems found do not depend on the path; they only carry it. */
  lemma {:induction false} CheckUnder(schema: Json, value: Json, path: Path)
    ensures Check(schema, value, path) == Under(path, Check(schema, value, []))
    decreases schema, 3
  {
    assert path + [] == path;
    hide Matches, SameValue, DeclaredTypes, ObjectProblems, ItemProblems, ListAt;
    var alternatives := ListAt(schema, "anyOf");
    if alternatives.Some? {
      forall i | 0 <= i < |alternatives.value| && alternatives.value[i].Obj?
        ensures Check(alternatives.value[i], value, path) == [] <==> Check(alternatives.value[i], value, []) == []
      {
        CheckUnder(alternatives.value[i], value, path);
      }
    } else if ListAt(schema, "enum").None? {
      if value.Obj? {
        ObjectUnder(schema, value, path);
      } else if value.Arr? {
        ItemsUnder(schema, value, path, 0);
      }
    }
  }

  lemma {:induction false} ObjectUnder(schema: Json, value: Json, path: Path)
    requires value.Obj?
    ensures ObjectProblems(schema, value, path) == Under(path, ObjectProblems(schema, value, []))
    decreases schema, 2
  {
    var properties := MembersAt(schema, "properties");
    MissingUnder(RequiredAt(schema), value, path);
    PropertiesUnder(schema, value, path, 0);
    ExtraUnder(value.members, properties, path);
    var missing := Missing(RequiredAt(schema), value, []);
    var nested := PropertyProblems(schema, value, [], 0);
    var extra := if Closed(schema) then Extra(value.members, properties, []) else [];
    hide Missing, PropertyProblems, Extra, Closed, MembersAt, RequiredAt, Under;
    UnderConcat(path, missing, nested);
    UnderConcat(path, missing + nested, extra);
    UnderNone(path);
  }

  /** One nested check, under its own step and then under the whole path. */
  lemma NestedUnder(path: Path, step: Step, here: seq<Problem>, local: seq<Problem>, bare: seq<Problem>)
    requires here == Under(path + [step], bare) && local == Under([step], bare)
    ensures here == Under(path, local)
  {
    UnderTwice(path, [step], bare);
  }

  lemma {:induction false} PropertiesUnder(schema: Json, value: Json, path: Path, k: nat)
    requires value.Obj?
    ensures PropertyProblems(schema, value, path, k) == Under(path, PropertyProblems(schema, value, [], k))
    decreases schema, 1, |MembersAt(schema, "properties")| - k
  {
    var properties := MembersAt(schema, "properties");
    if k < |properties| {
      var p := properties[k];
      PropertiesUnder(schema, value, path, k + 1);
      if p.value.Obj? && Has(value, p.name) {
        var v := Get(value, p.name);
        CheckUnder(p.value, v, path + [Key(p.name)]);
        CheckUnder(p.value, v, [] + [Key(p.name)]);
        assert [] + [Key(p.name)] == [Key(p.name)];
        NestedUnder(path, Key(p.name), Check(p.value, v, path + [Key(p.name)]), Check(p.value, v, [] + [Key(p.name)]),
                    Check(p.value, v, []));
      }
    }
  }

  lemma {:induction false} ItemsUnder(schema: Json, value: Json, path: Path, k: nat)
    requires value.Arr?
    ensures ItemProblems(schema, value, path, k) == Under(path, ItemProblems(schema, value, [], k))
    decreases schema, 1, |value.items| - k
  {
    if Has(schema, "items") && Get(schema, "items").Obj? && k < |value.items| {
      var items := Get(schema, "items");
      ItemsUnder(schema, value, path, k + 1);
      CheckUnder(items, value.items[k], path + [At(k)]);
      CheckUnder(items, value.items[k], [] + [At(k)]);
      assert [] + [At(k)] == [At(k)];
      NestedUnder(path, At(k), Check(items, value.items[k], path + [At(k)]), Check(items, value.items[k], [] + [At(k)]),
                  Check(items, value.items[k], []));
    }
  }

  // ----- loosening a schema -----

  /** A schema loosened, at any depth: alternatives added or loosened, required keys dropped, a closed
      object opened, properties and items loosened.  Enumerations and declared types stay. */
  predicate Loosens(schema: Json, looser: Json)
    decreases schema
  {
    schema == looser
    ||
    var from, to := ListAt(schema, "anyOf"), ListAt(looser, "anyOf");
    if from.Some? then
      to.Some?
      && forall i | 0 <= i < |from.value| && from.value[i].Obj? ::
           exists j | 0 <= j < |to.value| :: to.value[j].Obj? && Loosens(from.value[i], to.value[j])
    else
      && to.None?
      && ListAt(schema, "enum") == ListAt(looser, "enum")
      && DeclaredTypes(schema) == DeclaredTypes(looser)
      && (Closed(looser) ==> Closed(schema))
      && (forall key | key in RequiredAt(looser) :: key in RequiredAt(schema))
      && LoosensProperties(schema, looser)
      && (Has(looser, "items") && Get(looser, "items").Obj? ==>
            && Has(schema, "items")
            && Get(schema, "items").Obj?
            && Loosens(Get(schema, "items"), Get(looser, "items")))
  }

  predicate LoosensProperties(schema: Json, looser: Json)
    decreases schema, 0
  {
    var from, to := MembersAt(schema, "properties"), MembersAt(looser, "properties");
    && |from| == |to|
    && forall i | 0 <= i < |from| ::
         && from[i].name == to[i].name
         && (to[i].value.Obj? ==> from[i].value.Obj? && Loosens(from[i].value, to[i].value))
  }

  /** A looser schema accepts every document the schema accepts. */
  lemma {:induction false} LooserAcceptsMore(schema: Json, looser: Json, value: Json)
    requires Loosens(schema, looser) && Satisfies(schema, value)
    ensures Satisfies(looser, value)
    decreases schema, 1
  {
    if schema != looser {
      var from, to := ListAt(schema, "anyOf"), ListAt(looser, "anyOf");
      if from.Some? {
        var i :| 0 <= i < |from.value| && from.value[i].Obj? && Satisfies(from.value[i], value);
        var j :| 0 <= j < |to.value| && to.value[j].Obj? && Loosens(from.value[i], to.value[j]);
        LooserAcceptsMore(from.value[i], to.value[j], value);
      } else if ListAt(schema, "enum").None? && DeclaredTypes(schema) != [] {
        if "object" in DeclaredTypes(schema) && value.Obj? {
          LooserObject(schema, looser, value);
        } else if "array" in DeclaredTypes(schema) && value.Arr? {
          LooserItems(schema, looser, value);
        }
      }
    }
  }

  lemma {:induction false} LooserObject(schema: Json, looser: Json, value: Json)
    requires schema != looser && Loosens(schema, looser) && ListAt(schema, "anyOf").None?
    requires value.Obj? && SatisfiesObject(schema, value)
    ensures SatisfiesObject(looser, value)
    decreases schema, 0
  {
    var from, to := MembersAt(schema, "properties"), MembersAt(looser, "properties");
    forall i | 0 <= i < |to| && to[i].value.Obj? && Has(value, to[i].name)
      ensures Satisfies(to[i].value, Get(value, to[i].name))
    {
      LooserAcceptsMore(from[i].value, to[i].value, Get(value, from[i].name));
    }
    LooserRequires(schema, looser, value);
    if Closed(looser) {
      forall i | 0 <= i < |value.members|
        ensures HasMember(to, value.members[i].name)
      {
        SameNames(from, to, value.members[i].name);
      }
    }
  }

  lemma LooserRequires(schema: Json, looser: Json, value: Json)
    requires forall key | key in RequiredAt(looser) :: key in RequiredAt(schema)
    requires value.Obj? && SatisfiesObject(schema, value)
    ensures var required := ListAt(looser, "required");
            required.Some? ==>
              forall i | 0 <= i < |required.value| && required.value[i].Str? :: Has(value, required.value[i].s)
  {
    var from, to := RequiredAt(schema), RequiredAt(looser);
    forall i | 0 <= i < |to| && to[i].Str?
      ensures Has(value, to[i].s)
    {
      assert to[i] in to;
      assert to[i] in from;
      var k :| 0 <= k < |from| && from[k] == to[i];
    }
  }

  lemma {:induction false} LooserItems(schema: Json, looser: Json, value: Json)
    requires schema != looser && Loosens(schema, looser) && ListAt(schema, "anyOf").None?
    requires value.Arr? && SatisfiesItems(schema, value)
    ensures SatisfiesItems(looser, value)
    decreases schema, 0
  {
    if Has(looser, "items") && Get(looser, "items").Obj? {
      forall i | 0 <= i < |value.items|
        ensures Satisfies(Get(looser, "items"), value.items[i])
      {
        LooserAcceptsMore(Get(schema, "items"), Get(looser, "items"), value.items[i]);
      }
    }
  }

  lemma {:induction false} SameNames(a: seq<Member>, b: seq<Member>, name: string)
    requires |a| == |b| && forall i | 0 <= i < |a| :: a[i].name == b[i].name
    ensures IndexOf(a, name) == IndexOf(b, name)
  {
    if a != [] {
      SameNames(a[1..], b[1..], name);
    }
  }

  /** The schema with one member's value replaced. */
  function With(schema: Json, name: string, value: Json): (r: Json)
    requires Has(schema, name)
    ensures r.Obj? && |r.members| == |schema.members|
  {
    Obj(schema.members[IndexOf(schema.members, name) := Member(name, value)])
  }

  lemma OnlyThatMember(schema: Json, name: string, value: Json, other: string)
    requires Has(schema, name)
    ensures Has(With(schema, name, value), other) == Has(schema, other)
    ensures Has(schema, other) ==>
              Get(With(schema, name, value), other) == if other == name then value else Get(schema, other)
  {
    SameNames(schema.members, With(schema, name, value).members, other);
  }

  function Without(items: seq<Json>, key: string): (r: seq<Json>)
    ensures forall item :: item in r <==> item in items && item != Str(key)
  {
    if items == [] then []
    else (if items[0] == Str(key) then [] else [items[0]]) + Without(items[1..], key)
  }

  /** Dropping a required key never refuses a document that was accepted. */
  lemma DroppingARequiredKey(schema: Json, key: string, value: Json)
    requires ListAt(schema, "required").Some? && Satisfies(schema, value)
    ensures Satisfies(With(schema, "required", Arr(Without(RequiredAt(schema), key))), value)
  {
    DroppedLoosens(schema, key);
    LooserAcceptsMore(schema, With(schema, "required", Arr(Without(RequiredAt(schema), key))), value);
  }

  lemma DroppedLoosens(schema: Json, key: string)
    requires ListAt(schema, "required").Some?
    ensures Loosens(schema, With(schema, "required", Arr(Without(RequiredAt(schema), key))))
  {
    var kept := Arr(Without(RequiredAt(schema), key));
    var looser := With(schema, "required", kept);
    OnlyThatMember(schema, "required", kept, "anyOf");
    OnlyThatMember(schema, "required", kept, "enum");
    OnlyThatMember(schema, "required", kept, "type");
    OnlyThatMember(schema, "required", kept, "additionalProperties");
    OnlyThatMember(schema, "required", kept, "required");
    OnlyThatMember(schema, "required", kept, "properties");
    OnlyThatMember(schema, "required", kept, "items");
    hide With, Loosens;
    assert RequiredAt(looser) == kept.items;
    FewerKeysLoosen(schema, looser);
  }

  predicate SameItems(schema: Json, looser: Json) {
    Has(schema, "items") == Has(looser, "items")
    && (Has(schema, "items") ==> Get(schema, "items") == Get(looser, "items"))
  }

  lemma FewerKeysLoosen(schema: Json, looser: Json)
    requires ListAt(schema, "anyOf") == ListAt(looser, "anyOf")
    requires ListAt(schema, "enum") == ListAt(looser, "enum")
    requires DeclaredTypes(schema) == DeclaredTypes(looser)
    requires Closed(schema) == Closed(looser)
    requires forall key | key in RequiredAt(looser) :: key in RequiredAt(schema)
    requires MembersAt(schema, "properties") == MembersAt(looser, "properties")
    requires SameItems(schema, looser)
    ensures Loosens(schema, looser)
  {
    hide ListAt, DeclaredTypes, Closed, RequiredAt, MembersAt, LoosensProperties, Has, Get, Loosens;
    var branches := ListAt(schema, "anyOf");
    SamePropertiesLoosen(schema, looser);
    if branches.Some? {
      forall i | 0 <= i < |branches.value|
        ensures Loosens(branches.value[i], branches.value[i])
      {
        LoosensItself(branches.value[i]);
      }
    } else if Has(schema, "items") {
      LoosensItself(Get(schema, "items"));
    }
    LoosensByParts(schema, looser);
  }

  lemma LoosensByParts(schema: Json, looser: Json)
    requires ListAt(schema, "anyOf") == ListAt(looser, "anyOf")
    requires ListAt(schema, "enum") == ListAt(looser, "enum")
    requires DeclaredTypes(schema) == DeclaredTypes(looser)
    requires Closed(schema) == Closed(looser)
    requires forall key | key in RequiredAt(looser) :: key in RequiredAt(schema)
    requires LoosensProperties(schema, looser)
    requires SameItems(schema, looser)
    requires var branches := ListAt(schema, "anyOf");
             if branches.Some?
             then forall i | 0 <= i < |branches.value| :: Loosens(branches.value[i], branches.value[i])
             else Has(schema, "items") ==> Loosens(Get(schema, "items"), Get(schema, "items"))
    ensures Loosens(schema, looser)
  {
    hide ListAt, DeclaredTypes, Closed, RequiredAt, MembersAt, LoosensProperties, Has, Get;
  }

  lemma LoosensItself(schema: Json)
    ensures Loosens(schema, schema)
  {
  }

  lemma SamePropertiesLoosen(schema: Json, looser: Json)
    requires MembersAt(schema, "properties") == MembersAt(looser, "properties")
    ensures LoosensProperties(schema, looser)
  {
    var from := MembersAt(schema, "properties");
    forall i | 0 <= i < |from|
      ensures Loosens(from[i].value, from[i].value)
    {
      LoosensItself(from[i].value);
    }
  }

  /** Adding an alternative, anywhere among those there are, never refuses a document that was
      accepted. */
  lemma AddingAnAlternative(schema: Json, at: nat, branch: Json, value: Json)
    requires ListAt(schema, "anyOf").Some? && at <= |ListAt(schema, "anyOf").value| && Satisfies(schema, value)
    ensures var branches := ListAt(schema, "anyOf").value;
            Satisfies(With(schema, "anyOf", Arr(branches[..at] + [branch] + branches[at..])), value)
  {
    var branches := ListAt(schema, "anyOf").value;
    var more := branches[..at] + [branch] + branches[at..];
    OnlyThatMember(schema, "anyOf", Arr(more), "anyOf");
    var looser := With(schema, "anyOf", Arr(more));
    hide With;
    forall i | 0 <= i < |branches| && branches[i].Obj?
      ensures exists j | 0 <= j < |more| :: more[j].Obj? && Loosens(branches[i], more[j])
    {
      var j := if i < at then i else i + 1;
      assert more[j] == branches[i];
      LoosensItself(branches[i]);
    }
    MoreAlternativesLoosen(schema, looser);
    LooserAcceptsMore(schema, looser, value);
  }

  lemma MoreAlternativesLoosen(schema: Json, looser: Json)
    requires var from, to := ListAt(schema, "anyOf"), ListAt(looser, "anyOf");
             && from.Some? && to.Some?
             && forall i | 0 <= i < |from.value| && from.value[i].Obj? ::
                  exists j | 0 <= j < |to.value| :: to.value[j].Obj? && Loosens(from.value[i], to.value[j])
    ensures Loosens(schema, looser)
  {
    hide ListAt;
  }

  /** The schema with a member set: replaced where it stands, or added behind the others. */
  function Set(schema: Json, name: string, value: Json): (r: Json)
    requires schema.Obj?
    ensures r.Obj?
  {
    if Has(schema, name) then With(schema, name, value) else Obj(schema.members + [Member(name, value)])
  }

  lemma {:induction false} IndexOfLast(members: seq<Member>, last: Member)
    requires IndexOf(members, last.name) == |members|
    ensures IndexOf(members + [last], last.name) == |members|
  {
    if members != [] {
      assert (members + [last])[1..] == members[1..] + [last];
      IndexOfLast(members[1..], last);
    }
  }

  lemma SetIsThere(schema: Json, name: string, value: Json)
    requires schema.Obj?
    ensures Has(Set(schema, name, value), name) && Get(Set(schema, name, value), name) == value
  {
    if Has(schema, name) {
      OnlyThatMember(schema, name, value, name);
    } else {
      IndexOfLast(schema.members, Member(name, value));
    }
  }

  /** The first alternative decides alone: whatever else the schema says, a value is accepted exactly
      when that alternative accepts it. */
  lemma FirstAlternativeDecides(schema: Json, branch: Json, value: Json)
    requires schema.Obj?
    ensures Satisfies(Set(schema, "anyOf", Arr([branch])), value) <==> branch.Obj? && Satisfies(branch, value)
  {
    var altered := Set(schema, "anyOf", Arr([branch]));
    SetIsThere(schema, "anyOf", Arr([branch]));
    assert ListAt(altered, "anyOf") == Some([branch]);
    hide Set, Has;
    if branch.Obj? && Satisfies(branch, value) {
      assert [branch][0] == branch;
    }
  }

  /** A string that a schema for strings accepts is refused once null is the schema's one
      alternative. */
  lemma FirstAlternativeCanRefuse()
    ensures var schema := Obj([Member("type", Str("string"))]);
            var branch := Obj([Member("type", Str("null"))]);
            var narrowed := Obj([Member("type", Str("string")), Member("anyOf", Arr([branch]))]);
            Satisfies(schema, Str("x")) && !Satisfies(narrowed, Str("x"))
  {
    var schema := Obj([Member("type", Str("string"))]);
    var branch := Obj([Member("type", Str("null"))]);
    var narrowed := Obj([Member("type", Str("string")), Member("anyOf", Arr([branch]))]);
    assert IndexOf(schema.members, "anyOf") == 1 && IndexOf(schema.members, "enum") == 1;
    assert IndexOf(schema.members, "type") == 0;
    assert DeclaredTypes(schema) == ["string"];
    assert Matches("string", Str("x"));
    assert IndexOf(narrowed.members[1..], "anyOf") == 0;
    assert IndexOf(narrowed.members, "anyOf") == 1;
    assert IndexOf(branch.members, "anyOf") == 1 && IndexOf(branch.members, "enum") == 1;
    assert IndexOf(branch.members, "type") == 0;
    assert DeclaredTypes(branch) == ["null"];
    assert !Satisfies(branch, Str("x"));
  }
}

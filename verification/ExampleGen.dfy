/**
 * Example values for API documentation (docs/scripts/fix-openapi-spec.py,
 * `generate_example_from_schema`): a bounded walk over schemas that may refer to each other in cycles.
 */
module ExampleGen {
  import opened Wrappers

  /** A number as JSON writes it: with or without a fraction or exponent part. */
  datatype Number = Whole(i: int) | Fraction(r: real) {
    function Value(): real {
      match this
      case Whole(i) => i as real
      case Fraction(r) => r
    }
  }

  /** A JSON value; Python's None is Null. */
  datatype Json =
    | Null
    | Bool(b: bool)
    | Number(number: Number)
    | Text(text: string)
    | List(elements: seq<Json>)
    | Object(members: map<string, Json>)

  datatype Type =
    | ObjectType | ArrayType | StringType | IntegerType | NumberType | BooleanType | NullType
    | OtherType(name: string)

  datatype Additional = Absent | Flag(allowed: bool) | Sub(schema: Schema)

  /** The keys the generator reads, plus whether there are any others. */
  datatype Schema = Schema(
    ref: Option<string>, example: Option<Json>, declaredType: Option<Type>,
    properties: map<string, Schema>, additional: Additional, items: Option<Schema>,
    enumeration: Option<seq<Json>>, format: string, minimum: Option<Number>,
    oneOf: seq<Schema>, anyOf: seq<Schema>, otherKeys: bool)
  {
    function Type(): Type {
      declaredType.GetOr(ObjectType)
    }
  }

  const EMPTY := Schema(None, None, None, map[], Absent, None, None, "", None, [], [], false)

  type Components = map<string, Schema>

  // ----- References -----

  const COMPONENTS := "#/components/schemas/"

  function LastSegment(path: string): string {
    if path == "" || path[|path| - 1] == '/' then "" else LastSegment(path[..|path| - 1]) + [path[|path| - 1]]
  }

  function ComponentName(ref: string): Option<string> {
    if COMPONENTS <= ref then Some(LastSegment(ref)) else None
  }

  function Lookup(spec: Components, name: string): Schema {
    if name in spec then spec[name] else EMPTY
  }

  // ----- The generator -----

  datatype Outcome = Raised | Done(value: Json)

  function FormatExample(format: string): string {
    if format == "date-time" then "2024-01-15T10:30:00Z"
    else if format == "date" then "2024-01-15"
    else if format == "email" then "user@example.com"
    else if format == "uri" || format == "url" then "https://example.com"
    else if format == "uuid" then "550e8400-e29b-41d4-a716-446655440000"
    else "string"
  }

  predicate TruthyAdditional(a: Additional) {
    match a
    case Absent => false
    case Flag(allowed) => allowed
    case Sub(schema) => schema != EMPTY
  }

  /** What the generator returns with n levels left, that is max_depth - depth + 1. */
  function Example(s: Schema, spec: Components, n: nat): Outcome
    decreases n, 2
  {
    if n == 0 then Done(Null)
    else if s.ref.Some? then
      match ComponentName(s.ref.value)
      case Some(name) => Example(Lookup(spec, name), spec, n - 1)
      case None => Done(Null)
    else if s.example.Some? then Done(s.example.value)
    else
      match s.Type()
      case ObjectType => ObjectExample(s, spec, n)
      case ArrayType =>
        if !HasItems(s) then Done(List([]))
        else
          (match Example(s.items.value, spec, n - 1)
           case Raised => Raised
           case Done(v) => Done(List(if v == Null then [] else [v])))
      case StringType =>
        if s.enumeration.None? then Done(Text(FormatExample(s.format)))
        else if s.enumeration.value == [] then Raised
        else Done(s.enumeration.value[0])
      case IntegerType => Done(Number(s.minimum.GetOr(Whole(1))))
      case NumberType => Done(Number(s.minimum.GetOr(Fraction(1.0))))
      case BooleanType => Done(Bool(true))
      case NullType => Done(Null)
      case OtherType(_) =>
        if s.oneOf != [] then Example(s.oneOf[0], spec, n - 1)
        else if s.anyOf != [] then Example(s.anyOf[0], spec, n - 1)
        else Done(Null)
  }

  function ObjectExample(s: Schema, spec: Components, n: nat): Outcome
    requires n > 0
    decreases n, 1
  {
    if s.properties == map[] then
      Done(Object(if TruthyAdditional(s.additional) then map["key" := Text("value")] else map[]))
    else if exists name :: name in s.properties && Example(s.properties[name], spec, n - 1).Raised? then Raised
    else Done(Object(Members(s, spec, n, s.properties.Keys)))
  }

  /** The named properties that have an example. */
  function Members(s: Schema, spec: Components, n: nat, names: set<string>): map<string, Json>
    requires n > 0 && names <= s.properties.Keys
    requires forall name :: name in names ==> Example(s.properties[name], spec, n - 1).Done?
    decreases n, 0
  {
    map name | name in names && Example(s.properties[name], spec, n - 1).value != Null
      :: Example(s.properties[name], spec, n - 1).value
  }

  /** The object of a schema with properties: the named members are those with a non-null example. */
  lemma ObjectHolds(s: Schema, spec: Components, n: nat)
    requires n > 0 && s.ref.None? && s.example.None? && s.Type() == ObjectType && s.properties != map[]
    requires Example(s, spec, n).Done?
    ensures Example(s, spec, n).value.Object?
    ensures forall name :: name in s.properties ==> Example(s.properties[name], spec, n - 1).Done?
    ensures forall name :: name in Example(s, spec, n).value.members <==>
      name in s.properties && Example(s.properties[name], spec, n - 1).value != Null
    ensures forall name :: name in Example(s, spec, n).value.members ==>
      Example(s.properties[name], spec, n - 1) == Done(Example(s, spec, n).value.members[name])
  {
    assert Example(s, spec, n) == ObjectExample(s, spec, n);
  }

  lemma PickName(names: set<string>)
    ensures names == {} || exists name :: name in names
  {
    assert (forall name :: name !in names) ==> names == {};
  }

  function Left(depth: nat, maxDepth: nat): nat {
    if depth > maxDepth then 0 else maxDepth - depth + 1
  }

  method GenerateExample(s: Schema, spec: Components, depth: nat, maxDepth: nat) returns (r: Outcome)
    ensures r == Example(s, spec, if depth > maxDepth then 0 else maxDepth - depth + 1)
    decreases Left(depth, maxDepth)
  {
    if depth > maxDepth {
      return Done(Null);
    }
    if s.ref.Some? {
      var name := ComponentName(s.ref.value);
      if name.None? {
        return Done(Null);
      }
      r := GenerateExample(Lookup(spec, name.value), spec, depth + 1, maxDepth);
      return;
    }
    if s.example.Some? {
      return Done(s.example.value);
    }
    match s.Type()
    case ObjectType => r := GenerateObject(s, spec, depth, maxDepth);
    case ArrayType =>
      r := Done(List([]));
      if HasItems(s) {
        var item := GenerateExample(s.items.value, spec, depth + 1, maxDepth);
        if item.Raised? {
          return Raised;
        }
        if item.value != Null {
          r := Done(List([item.value]));
        }
      }
    case StringType =>
      if s.enumeration.Some? {
        if s.enumeration.value == [] {
          return Raised;
        }
        return Done(s.enumeration.value[0]);
      }
      r := Done(Text(FormatExample(s.format)));
    case IntegerType => r := Done(Number(s.minimum.GetOr(Whole(1))));
    case NumberType => r := Done(Number(s.minimum.GetOr(Fraction(1.0))));
    case BooleanType => r := Done(Bool(true));
    case NullType => r := Done(Null);
    case OtherType(_) =>
      r := Done(Null);
      if s.oneOf != [] {
        r := GenerateExample(s.oneOf[0], spec, depth + 1, maxDepth);
      } else if s.anyOf != [] {
        r := GenerateExample(s.anyOf[0], spec, depth + 1, maxDepth);
      }
  }

  lemma NoLevels(s: Schema, spec: Components)
    ensures Example(s, spec, 0) == Done(Null)
  {
  }

  /** The object branch fills `result` one property at a time. */
  method GenerateObject(s: Schema, spec: Components, depth: nat, maxDepth: nat) returns (r: Outcome)
    requires depth <= maxDepth
    ensures r == ObjectExample(s, spec, Left(depth, maxDepth))
    decreases Left(depth, maxDepth), 0
  {
    hide Example, FormatExample;
    if s.properties == map[] {
      if TruthyAdditional(s.additional) {
        return Done(Object(map["key" := Text("value")]));
      }
      return Done(Object(map[]));
    }
    ghost var n := Left(depth, maxDepth);
    var result: map<string, Json> := map[];
    var rest := s.properties.Keys;
    while rest != {}
      invariant rest <= s.properties.Keys
      invariant forall name :: name in s.properties.Keys - rest ==> Example(s.properties[name], spec, n - 1).Done?
      invariant result == Members(s, spec, n, s.properties.Keys - rest)
      decreases rest
    {
      PickName(rest);
      var name :| name in rest;
      rest := rest - {name};
      NoLevels(s.properties[name], spec);
      if depth < maxDepth {
        var value := GenerateExample(s.properties[name], spec, depth + 1, maxDepth);
        if value.Raised? {
          return Raised;
        }
        if value.value != Null {
          result := result[name := value.value];
        }
      }
    }
    assert s.properties.Keys - {} == s.properties.Keys;
    return Done(Object(result));
  }

  // ----- The schemas a call visits -----

  /** References, and types the generator does not know, hand over to at most one other schema. */
  predicate HandsOver(s: Schema) {
    s.ref.Some? || (s.example.None? && s.Type().OtherType?)
  }

  function Target(s: Schema, spec: Components): Option<Schema>
    requires HandsOver(s)
  {
    if s.ref.Some? then
      match ComponentName(s.ref.value)
      case Some(name) => Some(Lookup(spec, name))
      case None => None
    else if s.oneOf != [] then Some(s.oneOf[0])
    else if s.anyOf != [] then Some(s.anyOf[0])
    else None
  }

  predicate HasItems(s: Schema) {
    s.items.Some? && s.items.value != EMPTY
  }

  /** The schemas one call passes on to recursive calls. */
  ghost function Calls(s: Schema, spec: Components): set<Schema> {
    if HandsOver(s) then
      if Target(s, spec).Some? then {Target(s, spec).value} else {}
    else if s.example.Some? then {}
    else if s.Type().ObjectType? then set name | name in s.properties :: s.properties[name]
    else if s.Type().ArrayType? && HasItems(s) then {s.items.value}
    else {}
  }

  lemma HandedOver(s: Schema, spec: Components, n: nat)
    requires HandsOver(s) && n > 0
    ensures Example(s, spec, n) ==
      if Target(s, spec).Some? then Example(Target(s, spec).value, spec, n - 1) else Done(Null)
  {
  }

  /** A condition on every schema visited, with the levels left there. */
  ghost predicate Everywhere(s: Schema, spec: Components, n: nat, q: (Schema, nat) -> bool)
    decreases n
  {
    n > 0 ==> q(s, n) && forall c :: c in Calls(s, spec) ==> Everywhere(c, spec, n - 1, q)
  }

  // ----- When it raises -----

  ghost predicate HasChoice(t: Schema, n: nat) {
    t.ref.None? && t.example.None? && t.Type() == StringType ==> t.enumeration != Some([])
  }

  /** The walk always ends; it raises exactly when it visits a string schema with an empty enumeration. */
  lemma {:induction false} DoneIffChoicesExist(s: Schema, spec: Components, n: nat)
    ensures Example(s, spec, n).Done? <==> Everywhere(s, spec, n, HasChoice)
    decreases n
  {
    if n > 0 {
      forall c | c in Calls(s, spec) ensures Example(c, spec, n - 1).Done? <==> Everywhere(c, spec, n - 1, HasChoice) {
        DoneIffChoicesExist(c, spec, n - 1);
      }
      if HandsOver(s) {
        HandedOver(s, spec, n);
        assert Target(s, spec).Some? ==> Target(s, spec).value in Calls(s, spec);
      } else if s.example.None? && s.Type() == ObjectType {
        assert forall name :: name in s.properties ==> s.properties[name] in Calls(s, spec);
      } else if s.example.None? && s.Type() == ArrayType && HasItems(s) {
        assert s.items.value in Calls(s, spec);
      }
    }
  }

  // ----- How deep the result nests -----

  ghost predicate NestsAtMost(v: Json, n: int)
    decreases v
  {
    match v
    case Object(members) => n > 0 && forall name :: name in members ==> NestsAtMost(members[name], n - 1)
    case List(elements) => n > 0 && forall i :: 0 <= i < |elements| ==> NestsAtMost(elements[i], n - 1)
    case _ => n >= 0
  }

  lemma {:induction false} NestsMore(v: Json, n: int, m: int)
    requires NestsAtMost(v, n) && n <= m
    ensures NestsAtMost(v, m)
    decreases v
  {
    match v
    case Object(members) =>
      forall name | name in members ensures NestsAtMost(members[name], m - 1) {
        NestsMore(members[name], n - 1, m - 1);
      }
    case List(elements) =>
      forall i | 0 <= i < |elements| ensures NestsAtMost(elements[i], m - 1) {
        NestsMore(elements[i], n - 1, m - 1);
      }
    case _ =>
  }

  /** The values a schema carries itself: an example, or the first entry of an enumeration. */
  ghost function CarriesAtMost(e: nat): (Schema, nat) -> bool {
    (t, n) => Carries(t, e)
  }

  ghost predicate Carries(t: Schema, e: nat) {
    && (t.example.Some? ==> NestsAtMost(t.example.value, e))
    && (t.enumeration.Some? && t.enumeration.value != [] ==> NestsAtMost(t.enumeration.value[0], e))
  }

  /** At most one container a level around what the schemas carry; max_depth - depth + 1 when that is scalar. */
  lemma {:induction false} NestingBounded(s: Schema, spec: Components, n: nat, e: nat)
    requires Everywhere(s, spec, n, CarriesAtMost(e)) && Example(s, spec, n).Done?
    ensures NestsAtMost(Example(s, spec, n).value, n + e)
    decreases n
  {
    if n > 0 {
      assert Carries(s, e);
      forall c | c in Calls(s, spec) && Example(c, spec, n - 1).Done?
        ensures NestsAtMost(Example(c, spec, n - 1).value, n - 1 + e)
      {
        NestingBounded(c, spec, n - 1, e);
      }
      var v := Example(s, spec, n).value;
      if HandsOver(s) {
        HandedOver(s, spec, n);
        if Target(s, spec).Some? {
          assert Target(s, spec).value in Calls(s, spec);
          NestsMore(v, n - 1 + e, n + e);
        }
      } else if s.example.Some? || (s.Type() == StringType && s.enumeration.Some?) {
        NestsMore(v, e, n + e);
      } else if s.Type() == ObjectType && s.properties != map[] {
        ObjectHolds(s, spec, n);
        forall name | name in v.members ensures NestsAtMost(v.members[name], n + e - 1) {
          assert s.properties[name] in Calls(s, spec);
        }
      } else if s.Type() == ArrayType && HasItems(s) {
        assert s.items.value in Calls(s, spec);
      }
    }
  }

  // ----- Conformance (Schema Object, section 4.7.24 of OpenAPI 3.0.3) -----

  /** Following references; a name the components do not define leads nowhere. */
  ghost function Chase(s: Schema, spec: Components, k: nat): Option<Schema>
    decreases k
  {
    if s.ref.None? then Some(s)
    else if k > 0 && ComponentName(s.ref.value).Some? && ComponentName(s.ref.value).value in spec then
      Chase(spec[ComponentName(s.ref.value).value], spec, k - 1)
    else None
  }

  ghost predicate HasType(v: Json, declared: Type) {
    match declared
    case ObjectType => v.Object?
    case ArrayType => v.List?
    case StringType => v.Text?
    case IntegerType => v.Number? && v.number.Whole?
    case NumberType => v.Number?
    case BooleanType => v.Bool?
    case NullType => v == Null
    case OtherType(_) => false
  }

  /** type, properties, additionalProperties, items, enum, minimum and $ref. */
  ghost predicate Conforms(v: Json, s: Schema, spec: Components)
    decreases v, 1
  {
    exists k: nat :: Chase(s, spec, k).Some? && Meets(v, Chase(s, spec, k).value, spec)
  }

  /** A value against the schema itself, once references are followed. */
  ghost predicate Meets(v: Json, t: Schema, spec: Components)
    decreases v, 0
  {
    && (t.declaredType.Some? ==> HasType(v, t.declaredType.value))
    && (t.enumeration.Some? ==> v in t.enumeration.value)
    && (v.Number? && t.minimum.Some? ==> v.number.Value() >= t.minimum.value.Value())
    && (v.List? && t.items.Some? ==> forall i :: 0 <= i < |v.elements| ==> Conforms(v.elements[i], t.items.value, spec))
    && (v.Object? ==> forall name :: name in v.members ==>
          if name in t.properties then Conforms(v.members[name], t.properties[name], spec)
          else t.additional != Flag(false) &&
               (t.additional.Sub? ==> Conforms(v.members[name], t.additional.schema, spec)))
  }

  lemma ConformsHere(v: Json, s: Schema, spec: Components)
    requires s.ref.None?
    ensures Conforms(v, s, spec) <==> Meets(v, s, spec)
  {
    assert Chase(s, spec, 0) == Some(s);
    assert forall k: nat :: Chase(s, spec, k) == Some(s);
  }

  lemma ConformsThere(v: Json, s: Schema, spec: Components)
    requires s.ref.Some?
    ensures Conforms(v, s, spec) <==>
      && ComponentName(s.ref.value).Some? && ComponentName(s.ref.value).value in spec
      && Conforms(v, spec[ComponentName(s.ref.value).value], spec)
  {
    var name := ComponentName(s.ref.value);
    if name.Some? && name.value in spec {
      var there := spec[name.value];
      assert forall k: nat :: Chase(s, spec, k + 1) == Chase(there, spec, k);
      if Conforms(v, s, spec) {
        var k: nat :| Chase(s, spec, k).Some? && Meets(v, Chase(s, spec, k).value, spec);
        assert k > 0 && Chase(there, spec, k - 1) == Chase(s, spec, k);
      }
      if Conforms(v, there, spec) {
        var k: nat :| Chase(there, spec, k).Some? && Meets(v, Chase(there, spec, k).value, spec);
        assert Chase(s, spec, k + 1) == Chase(there, spec, k);
      }
    } else {
      assert forall k: nat :: Chase(s, spec, k).None?;
    }
  }

  // ----- What the schemas alone say of the example -----

  /** Whether a schema has an example other than None, with n levels left. */
  ghost predicate HasExample(t: Schema, spec: Components, n: nat)
    decreases n
  {
    n > 0 &&
    if HandsOver(t) then Target(t, spec).Some? && HasExample(Target(t, spec).value, spec, n - 1)
    else if t.example.Some? then t.example.value != Null
    else if t.Type().StringType? && t.enumeration.Some? then t.enumeration.value == [] || t.enumeration.value[0] != Null
    else !t.Type().NullType?
  }

  /** Whether v is what the schema offers, with n levels left: for containers, member by member. */
  ghost predicate Offers(t: Schema, spec: Components, n: nat, v: Json)
    decreases n
  {
    if n == 0 then v == Null
    else if HandsOver(t) then if Target(t, spec).Some? then Offers(Target(t, spec).value, spec, n - 1, v) else v == Null
    else if t.example.Some? then v == t.example.value
    else
      match t.Type()
      case ObjectType =>
        v.Object? &&
        if t.properties == map[] then
          v.members == if TruthyAdditional(t.additional) then map["key" := Text("value")] else map[]
        else
          && v.members.Keys <= t.properties.Keys
          && forall name :: name in t.properties ==>
               && (name in v.members <==> HasExample(t.properties[name], spec, n - 1))
               && (name in v.members ==> Offers(t.properties[name], spec, n - 1, v.members[name]))
      case ArrayType =>
        v.List? &&
        if HasItems(t) && HasExample(t.items.value, spec, n - 1) then
          |v.elements| == 1 && Offers(t.items.value, spec, n - 1, v.elements[0])
        else v.elements == []
      case StringType =>
        if t.enumeration.Some? then t.enumeration.value != [] && v == t.enumeration.value[0]
        else v == Text(FormatExample(t.format))
      case IntegerType => v == Number(t.minimum.GetOr(Whole(1)))
      case NumberType => v == Number(t.minimum.GetOr(Fraction(1.0)))
      case BooleanType => v == Bool(true)
      case _ => v == Null
  }

  ghost predicate OffersOnly(t: Schema, spec: Components, n: nat, value: Json) {
    forall v :: Offers(t, spec, n, v) <==> value == v
  }

  /** The generator returns exactly the one value the schemas offer. */
  lemma {:induction false} OffersExample(s: Schema, spec: Components, n: nat)
    requires Example(s, spec, n).Done?
    ensures HasExample(s, spec, n) <==> Example(s, spec, n).value != Null
    ensures OffersOnly(s, spec, n, Example(s, spec, n).value)
    decreases n
  {
    if n == 0 {
    } else if HandsOver(s) {
      HandedOver(s, spec, n);
      if Target(s, spec).Some? {
        OffersExample(Target(s, spec).value, spec, n - 1);
      }
    } else if s.example.None? && s.Type().ObjectType? && s.properties != map[] {
      ObjectOffers(s, spec, n);
    } else if s.example.None? && s.Type().ArrayType? && HasItems(s) {
      ArrayOffers(s, spec, n);
    }
  }

  lemma {:induction false} ArrayOffers(s: Schema, spec: Components, n: nat)
    requires n > 0 && s.ref.None? && s.example.None? && s.Type().ArrayType? && HasItems(s)
    requires Example(s, spec, n).Done?
    ensures HasExample(s, spec, n) && Example(s, spec, n).value != Null
    ensures OffersOnly(s, spec, n, Example(s, spec, n).value)
    decreases n, 0
  {
    OffersExample(s.items.value, spec, n - 1);
    var item := Example(s.items.value, spec, n - 1).value;
    forall v ensures Offers(s, spec, n, v) <==> Example(s, spec, n).value == v {
      if v.List? && |v.elements| == 1 {
        assert v.elements == [v.elements[0]];
        assert v == List([item]) <==> v.elements[0] == item;
      }
    }
  }

  lemma {:induction false} ObjectOffers(s: Schema, spec: Components, n: nat)
    requires n > 0 && s.ref.None? && s.example.None? && s.Type().ObjectType? && s.properties != map[]
    requires Example(s, spec, n).Done?
    ensures HasExample(s, spec, n) && Example(s, spec, n).value != Null
    ensures OffersOnly(s, spec, n, Example(s, spec, n).value)
    decreases n, 0
  {
    ObjectHolds(s, spec, n);
    var made := Example(s, spec, n).value;
    forall name | name in s.properties
      ensures HasExample(s.properties[name], spec, n - 1) <==> name in made.members
      ensures OffersOnly(s.properties[name], spec, n - 1, Example(s.properties[name], spec, n - 1).value)
    {
      OffersExample(s.properties[name], spec, n - 1);
    }
    forall v ensures Offers(s, spec, n, v) <==> made == v {
      if Offers(s, spec, n, v) {
        forall name ensures name in v.members <==> name in made.members {
          assert name in v.members ==> name in v.members.Keys;
        }
        forall name | name in v.members ensures v.members[name] == made.members[name] {
          assert Offers(s.properties[name], spec, n - 1, v.members[name]);
        }
        assert v.members == made.members;
      }
    }
  }

  /** A non-null value of the schema's own making is among those its enumeration allows. */
  ghost predicate EnumerationAllows(t: Schema, spec: Components, n: nat) {
    t.enumeration.Some? ==>
      if t.Type().StringType? then t.enumeration.value != [] && t.enumeration.value[0].Text?
      else exists v :: v in t.enumeration.value && Offers(t, spec, n, v)
  }

  lemma AllowsExample(s: Schema, spec: Components, n: nat)
    requires Example(s, spec, n).Done?
    ensures HasExample(s, spec, n) <==> Example(s, spec, n).value != Null
    ensures s.enumeration.Some? && !s.Type().StringType? ==>
      (EnumerationAllows(s, spec, n) <==> Example(s, spec, n).value in s.enumeration.value)
  {
    OffersExample(s, spec, n);
    hide Offers;
  }

  /**
   * What a visited schema that has an example must be like: its reference resolves, an embedded
   * example conforms, the declared type is a known one, an integer's minimum is an integer, the
   * enumeration allows the value, and a schema for additional properties accepts the text "value".
   */
  ghost predicate Sound(t: Schema, spec: Components, n: nat) {
    HasExample(t, spec, n) ==>
      if t.ref.Some? then ComponentName(t.ref.value).Some? && ComponentName(t.ref.value).value in spec
      else if t.example.Some? then Conforms(t.example.value, t, spec)
      else
        && !t.Type().OtherType?
        && (t.Type().IntegerType? && t.minimum.Some? ==> t.minimum.value.Whole?)
        && EnumerationAllows(t, spec, n)
        && (t.Type().ObjectType? && t.properties == map[] && t.additional.Sub? && t.additional.schema != EMPTY ==>
              Conforms(Text("value"), t.additional.schema, spec))
  }

  ghost function SoundIn(spec: Components): (Schema, nat) -> bool {
    (t: Schema, n: nat) => Sound(t, spec, n)
  }

  /** A schema without an example does no harm, nor do those its call visits. */
  lemma {:induction false} NullIsSound(s: Schema, spec: Components, n: nat)
    requires Example(s, spec, n) == Done(Null)
    ensures Everywhere(s, spec, n, SoundIn(spec))
    decreases n
  {
    OffersExample(s, spec, n);
    if n > 0 {
      if HandsOver(s) {
        HandedOver(s, spec, n);
        if Target(s, spec).Some? {
          NullIsSound(Target(s, spec).value, spec, n - 1);
        }
      } else {
        assert Calls(s, spec) == {};
      }
    }
  }

  /** A non-null example conforms exactly when every visited schema is sound. */
  lemma {:induction false} ConformsIffSound(s: Schema, spec: Components, n: nat)
    requires Example(s, spec, n).Done? && Example(s, spec, n).value != Null
    ensures Conforms(Example(s, spec, n).value, s, spec) <==> Everywhere(s, spec, n, SoundIn(spec))
    decreases n
  {
    hide Conforms, Sound, Chase;
    assert SoundIn(spec)(s, n) <==> Sound(s, spec, n);
    if s.ref.Some? {
      RefConforms(s, spec, n);
    } else if s.example.Some? {
      ExampleConforms(s, spec, n);
    } else if s.Type().OtherType? {
      OtherNeverConforms(s, spec, n);
    } else if s.Type().ObjectType? && s.properties != map[] {
      ObjectConforms(s, spec, n);
    } else if s.Type().ArrayType? && HasItems(s) {
      ArrayConforms(s, spec, n);
    } else {
      LeafConforms(s, spec, n);
    }
  }

  lemma {:induction false} RefConforms(s: Schema, spec: Components, n: nat)
    requires n > 0 && s.ref.Some?
    requires Example(s, spec, n).Done? && Example(s, spec, n).value != Null
    ensures Conforms(Example(s, spec, n).value, s, spec) <==> Everywhere(s, spec, n, SoundIn(spec))
    decreases n, 0
  {
    hide Conforms, Chase;
    var v := Example(s, spec, n).value;
    HandedOver(s, spec, n);
    ConformsThere(v, s, spec);
    ConformsIffSound(Target(s, spec).value, spec, n - 1);
    assert Calls(s, spec) == {Target(s, spec).value};
    assert SoundIn(spec)(s, n) <==> Sound(s, spec, n);
    assert Everywhere(s, spec, n, SoundIn(spec)) <==>
      Sound(s, spec, n) && Everywhere(Target(s, spec).value, spec, n - 1, SoundIn(spec));
    assert HasExample(s, spec, n) by { OffersExample(s, spec, n); }
  }

  lemma ExampleConforms(s: Schema, spec: Components, n: nat)
    requires n > 0 && s.ref.None? && s.example.Some? && s.example.value != Null
    ensures Conforms(Example(s, spec, n).value, s, spec) <==> Everywhere(s, spec, n, SoundIn(spec))
  {
    hide Conforms, Chase;
    assert Calls(s, spec) == {};
  }

  lemma OtherNeverConforms(s: Schema, spec: Components, n: nat)
    requires n > 0 && s.ref.None? && s.example.None? && s.Type().OtherType?
    requires Example(s, spec, n).Done? && Example(s, spec, n).value != Null
    ensures !Conforms(Example(s, spec, n).value, s, spec) && !Everywhere(s, spec, n, SoundIn(spec))
  {
    hide Conforms, Chase, Offers;
    AllowsExample(s, spec, n);
    ConformsHere(Example(s, spec, n).value, s, spec);
    assert !SoundIn(spec)(s, n);
  }

  lemma LeafConforms(s: Schema, spec: Components, n: nat)
    requires n > 0 && s.ref.None? && s.example.None? && !s.Type().OtherType?
    requires (s.Type().ObjectType? ==> s.properties == map[]) && (s.Type().ArrayType? ==> !HasItems(s))
    requires Example(s, spec, n).Done? && Example(s, spec, n).value != Null
    ensures Conforms(Example(s, spec, n).value, s, spec) <==> Everywhere(s, spec, n, SoundIn(spec))
  {
    hide Conforms, Chase, Offers;
    var v := Example(s, spec, n).value;
    AllowsExample(s, spec, n);
    ConformsHere(v, s, spec);
    assert Calls(s, spec) == {};
    assert Meets(v, s, spec) <==> Sound(s, spec, n) by {
      if s.Type().ObjectType? && TruthyAdditional(s.additional) {
        assert v.members["key"] == Text("value");
      }
    }
  }

  /** For containers with contents, soundness of the schema itself is a matter of the enumeration. */
  lemma ContainerSound(s: Schema, spec: Components, n: nat)
    requires n > 0 && s.ref.None? && s.example.None? && Example(s, spec, n).Done?
    requires s.Type().ArrayType? || (s.Type().ObjectType? && s.properties != map[])
    ensures SoundIn(spec)(s, n) <==> (s.enumeration.Some? ==> Example(s, spec, n).value in s.enumeration.value)
  {
    hide EnumerationAllows, Conforms;
    AllowsExample(s, spec, n);
    if s.Type().ObjectType? {
      ObjectHolds(s, spec, n);
    }
    assert HasExample(s, spec, n);
    assert s.enumeration.None? ==> EnumerationAllows(s, spec, n) by { NoEnumeration(s, spec, n); }
  }

  lemma NoEnumeration(s: Schema, spec: Components, n: nat)
    ensures s.enumeration.None? ==> EnumerationAllows(s, spec, n)
  {
  }

  lemma {:induction false} ArrayConforms(s: Schema, spec: Components, n: nat)
    requires n > 0 && s.ref.None? && s.example.None? && s.Type().ArrayType? && HasItems(s)
    requires Example(s, spec, n).Done?
    ensures Conforms(Example(s, spec, n).value, s, spec) <==> Everywhere(s, spec, n, SoundIn(spec))
    decreases n, 0
  {
    hide Conforms, Chase, Sound;
    ContainerSound(s, spec, n);
    ConformsHere(Example(s, spec, n).value, s, spec);
    assert Calls(s, spec) == {s.items.value};
    var item := Example(s.items.value, spec, n - 1).value;
    if item == Null {
      NullIsSound(s.items.value, spec, n - 1);
    } else {
      var v := Example(s, spec, n).value;
      assert v.elements == [item] && v.elements[0] == item;
      ConformsIffSound(s.items.value, spec, n - 1);
      assert Everywhere(s, spec, n, SoundIn(spec)) <==> SoundIn(spec)(s, n) && Conforms(item, s.items.value, spec);
      assert Meets(v, s, spec) <==> SoundIn(spec)(s, n) && Conforms(item, s.items.value, spec);
    }
  }

  lemma {:induction false} ObjectConforms(s: Schema, spec: Components, n: nat)
    requires n > 0 && s.ref.None? && s.example.None? && s.Type().ObjectType? && s.properties != map[]
    requires Example(s, spec, n).Done?
    ensures Conforms(Example(s, spec, n).value, s, spec) <==> Everywhere(s, spec, n, SoundIn(spec))
    decreases n, 0
  {
    hide Conforms, Chase, Sound;
    var v := Example(s, spec, n).value;
    ContainerSound(s, spec, n);
    ConformsHere(v, s, spec);
    ObjectHolds(s, spec, n);
    forall name | name in s.properties
      ensures Everywhere(s.properties[name], spec, n - 1, SoundIn(spec)) <==>
        (name in v.members ==> Conforms(v.members[name], s.properties[name], spec))
    {
      if name in v.members {
        ConformsIffSound(s.properties[name], spec, n - 1);
      } else {
        NullIsSound(s.properties[name], spec, n - 1);
      }
    }
    assert forall name :: name in s.properties ==> s.properties[name] in Calls(s, spec);
  }

  // ----- The plain fragment -----

  /**
   * No embedded example, a known type or none, a non-empty enumeration of strings only on strings,
   * and nothing but a boolean for additional properties.
   */
  predicate InFragment(t: Schema, n: nat) {
    t.ref.None? ==>
      && t.example.None? && !t.Type().OtherType? && !t.additional.Sub?
      && (t.enumeration.Some? ==>
            t.Type().StringType? && t.enumeration.value != [] && forall v :: v in t.enumeration.value ==> v.Text?)
  }

  /** A component reference above the last level names a component, and an integer's minimum is an integer. */
  predicate Plain(t: Schema, spec: Components, n: nat) {
    if t.ref.Some? then n > 1 && ComponentName(t.ref.value).Some? ==> ComponentName(t.ref.value).value in spec
    else t.Type().IntegerType? && t.minimum.Some? ==> t.minimum.value.Whole?
  }

  ghost function PlainIn(spec: Components): (Schema, nat) -> bool {
    (t: Schema, n: nat) => Plain(t, spec, n)
  }

  lemma PlainIsSound(t: Schema, spec: Components, n: nat)
    requires n > 0 && InFragment(t, n)
    ensures Sound(t, spec, n) <==> Plain(t, spec, n)
  {
    hide Conforms, Offers;
    if t.ref.Some? && ComponentName(t.ref.value).Some? && ComponentName(t.ref.value).value !in spec {
      assert HasExample(EMPTY, spec, n - 1) <==> n > 1;
    }
  }

  lemma {:induction false} EverywherePlain(s: Schema, spec: Components, n: nat)
    requires Everywhere(s, spec, n, InFragment)
    ensures Everywhere(s, spec, n, SoundIn(spec)) <==> Everywhere(s, spec, n, PlainIn(spec))
    decreases n
  {
    hide Sound, Plain, InFragment, Calls;
    if n > 0 {
      PlainIsSound(s, spec, n);
      assert SoundIn(spec)(s, n) <==> PlainIn(spec)(s, n);
      forall c | c in Calls(s, spec)
        ensures Everywhere(c, spec, n - 1, SoundIn(spec)) <==> Everywhere(c, spec, n - 1, PlainIn(spec))
      {
        EverywherePlain(c, spec, n - 1);
      }
    }
  }

  /**
   * In the plain fragment: an example that is not None conforms exactly when every reference above
   * the last level resolves and every integer's minimum is an integer.
   */
  lemma ConformsInFragment(s: Schema, spec: Components, n: nat)
    requires Everywhere(s, spec, n, InFragment)
    ensures Example(s, spec, n).Done?
    ensures Example(s, spec, n).value != Null ==>
      (Conforms(Example(s, spec, n).value, s, spec) <==> Everywhere(s, spec, n, PlainIn(spec)))
  {
    hide Conforms, Sound, Plain;
    FragmentHasChoices(s, spec, n);
    DoneIffChoicesExist(s, spec, n);
    EverywherePlain(s, spec, n);
    if Example(s, spec, n).value != Null {
      ConformsIffSound(s, spec, n);
    }
  }

  lemma {:induction false} FragmentHasChoices(s: Schema, spec: Components, n: nat)
    requires Everywhere(s, spec, n, InFragment)
    ensures Everywhere(s, spec, n, HasChoice)
    decreases n
  {
    if n > 0 {
      forall c | c in Calls(s, spec) ensures Everywhere(c, spec, n - 1, HasChoice) {
        FragmentHasChoices(c, spec, n - 1);
      }
    }
  }

  // ----- What references, defaults and formats give -----

  /** The name in a component reference is what follows its last slash. */
  lemma {:induction false} ComponentNameMeans(front: string, name: string)
    requires "#/components/schemas/" <= front && front[|front| - 1] == '/' && '/' !in name
    ensures ComponentName(front + name) == Some(name)
  {
    LastSegmentMeans(front, name);
  }

  lemma {:induction false} LastSegmentMeans(front: string, name: string)
    requires front != [] && front[|front| - 1] == '/' && '/' !in name
    ensures LastSegment(front + name) == name
  {
    if name != [] {
      var n := |name| - 1;
      LastSegmentMeans(front, name[..n]);
      assert (front + name)[..|front + name| - 1] == front + name[..n];
      assert name == name[..n] + [name[n]];
    } else {
      assert front + name == front;
    }
  }

  /**
   * A reference to a component gives that component's example with one level less; to a component that
   * is not defined, an empty object while a level is left; any other reference gives None.
   */
  lemma ReferencesMean(s: Schema, spec: Components, n: nat, name: string)
    requires s.ref.Some? && n > 0
    ensures s.ref == Some("#/components/schemas/" + name) && '/' !in name && name in spec ==>
      Example(s, spec, n) == Example(spec[name], spec, n - 1)
    ensures s.ref == Some("#/components/schemas/" + name) && '/' !in name && name !in spec ==>
      Example(s, spec, n) == Done(if n > 1 then Object(map[]) else Null)
    ensures !("#/components/schemas/" <= s.ref.value) ==> Example(s, spec, n) == Done(Null)
  {
    if '/' !in name {
      ComponentNameMeans("#/components/schemas/", name);
    }
    if name !in spec && n > 1 {
      assert Example(EMPTY, spec, n - 1) == ObjectExample(EMPTY, spec, n - 1);
    }
  }

  /** The schema of its own making: no reference and no embedded example. */
  predicate OfType(s: Schema, t: Type) {
    s.ref.None? && s.example.None? && s.declaredType == Some(t)
  }

  /**
   * A missing type is an object. Without properties an object is empty unless additionalProperties is
   * true or a schema that says something; an array is empty without an item schema that says something.
   * A missing minimum is 1; a boolean is true. Of a type that is not known, the first of oneOf is taken,
   * else the first of anyOf. Nothing is left below the last level.
   */
  lemma DefaultsMean(s: Schema, spec: Components, n: nat)
    requires n > 0
    ensures Example(s, spec, 0) == Done(Null)
    ensures s.declaredType.None? ==> Example(s, spec, n) == Example(s.(declaredType := Some(ObjectType)), spec, n)
    ensures OfType(s, ObjectType) && s.properties == map[] ==>
      Example(s, spec, n) == Done(Object(
        if s.additional in {Absent, Flag(false), Sub(EMPTY)} then map[] else map["key" := Text("value")]))
    ensures OfType(s, ArrayType) && s.items in {None, Some(EMPTY)} ==> Example(s, spec, n) == Done(List([]))
    ensures OfType(s, IntegerType) && s.minimum.None? ==> Example(s, spec, n) == Done(Number(Whole(1)))
    ensures OfType(s, NumberType) && s.minimum.None? ==> Example(s, spec, n) == Done(Number(Fraction(1.0)))
    ensures OfType(s, BooleanType) ==> Example(s, spec, n) == Done(Bool(true))
    ensures forall name :: OfType(s, OtherType(name)) && s.oneOf != [] ==>
      Example(s, spec, n) == Example(s.oneOf[0], spec, n - 1)
    ensures forall name :: OfType(s, OtherType(name)) && s.oneOf == [] && s.anyOf != [] ==>
      Example(s, spec, n) == Example(s.anyOf[0], spec, n - 1)
  {
    if s.declaredType.None? && s.ref.None? && s.example.None? {
      var t := s.(declaredType := Some(ObjectType));
      assert ObjectExample(t, spec, n) == ObjectExample(s, spec, n);
    }
  }

  predicate DigitsIn(text: string, from: nat, to: nat) {
    to <= |text| && forall i :: from <= i < to ==> '0' <= text[i] <= '9'
  }

  function TwoDigits(text: string, at: nat): int
    requires at + 2 <= |text|
  {
    10 * (text[at] as int - '0' as int) + (text[at + 1] as int - '0' as int)
  }

  /** full-date of RFC 3339, section 5.6. */
  predicate IsFullDate(text: string) {
    && |text| == 10 && text[4] == '-' && text[7] == '-'
    && DigitsIn(text, 0, 4) && DigitsIn(text, 5, 7) && DigitsIn(text, 8, 10)
    && 1 <= TwoDigits(text, 5) <= 12 && 1 <= TwoDigits(text, 8) <= 28
  }

  /** date-time of RFC 3339, section 5.6, in UTC and without a fraction. */
  predicate IsDateTime(text: string) {
    && |text| == 20 && IsFullDate(text[..10])
    && text[10] == 'T' && text[13] == ':' && text[16] == ':' && text[19] == 'Z'
    && DigitsIn(text, 11, 13) && DigitsIn(text, 14, 16) && DigitsIn(text, 17, 19)
    && TwoDigits(text, 11) < 24 && TwoDigits(text, 14) < 60 && TwoDigits(text, 17) < 60
  }

  /** The text has `separator` at `at`, and something on both sides. */
  predicate Separated(text: string, at: nat, separator: string) {
    0 < at && at + |separator| < |text| && text[at..at + |separator|] == separator
  }

  predicate IsAddress(text: string) {
    exists at :: 0 <= at < |text| && Separated(text, at, "@") && '@' !in text[..at] + text[at + 1..]
  }

  predicate IsUri(text: string) {
    exists at :: 0 <= at < |text| && Separated(text, at, "://") && forall i :: 0 <= i < at ==> 'a' <= text[i] <= 'z'
  }

  /** Section 3 of RFC 4122. */
  predicate IsUuid(text: string) {
    && |text| == 36
    && forall i :: 0 <= i < 36 ==>
         if i in {8, 13, 18, 23} then text[i] == '-' else '0' <= text[i] <= '9' || 'a' <= text[i] <= 'f'
  }

  /** A string schema gives the first value of its enumeration, or else a text of the declared format. */
  lemma FormatsMean(s: Schema, spec: Components, n: nat)
    requires n > 0 && OfType(s, StringType)
    ensures s.enumeration.Some? && s.enumeration.value != [] ==> Example(s, spec, n) == Done(s.enumeration.value[0])
    ensures s.enumeration.None? ==>
      && Example(s, spec, n).Done? && Example(s, spec, n).value.Text?
      && var text := Example(s, spec, n).value.text;
      && (s.format == "date" ==> IsFullDate(text))
      && (s.format == "date-time" ==> IsDateTime(text))
      && (s.format == "email" ==> IsAddress(text))
      && (s.format in {"uri", "url"} ==> IsUri(text))
      && (s.format == "uuid" ==> IsUuid(text))
      && (s.format !in {"date", "date-time", "email", "uri", "url", "uuid"} ==> text == "string")
  {
    hide IsFullDate, IsDateTime, IsAddress, IsUri, IsUuid;
    SampleDates();
    SampleAddresses();
    SampleUuid();
  }

  lemma SampleDate()
    ensures IsFullDate("2024-01-15")
  {
  }

  lemma SampleDates()
    ensures IsFullDate("2024-01-15") && IsDateTime("2024-01-15T10:30:00Z")
  {
    SampleDate();
    hide IsFullDate;
    assert "2024-01-15T10:30:00Z"[..10] == "2024-01-15";
  }

  lemma AddressAt(left: string, right: string)
    requires left != "" && right != "" && '@' !in left && '@' !in right
    ensures IsAddress(left + "@" + right)
  {
    var text := left + "@" + right;
    assert text[..|left|] == left && text[|left| + 1..] == right && text[|left|..|left| + 1] == "@";
    assert Separated(text, |left|, "@");
  }

  lemma UriAt(scheme: string, rest: string)
    requires scheme != "" && rest != "" && forall i :: 0 <= i < |scheme| ==> 'a' <= scheme[i] <= 'z'
    ensures IsUri(scheme + "://" + rest)
  {
    var text := scheme + "://" + rest;
    assert text[|scheme|..|scheme| + 3] == "://";
    assert Separated(text, |scheme|, "://");
  }

  lemma SampleAddresses()
    ensures IsAddress("user@example.com") && IsUri("https://example.com")
  {
    hide IsAddress, IsUri;
    assert "user" + "@" + "example.com" == "user@example.com";
    assert "https" + "://" + "example.com" == "https://example.com";
    AddressAt("user", "example.com");
    UriAt("https", "example.com");
  }

  lemma SampleUuid()
    ensures IsUuid("550e8400-e29b-41d4-a716-446655440000")
  {
  }

  // ----- oneOf and anyOf -----

  /** oneOf and anyOf matter only for a declared type the generator does not know, never for a missing one. */
  lemma ChoicesReadOnlyForUnknownTypes(s: Schema, spec: Components, n: nat)
    requires n > 1 && s.ref.None? && s.example.None?
    ensures (forall one, any :: Example(s.(oneOf := one, anyOf := any), spec, n) == Example(s, spec, n)) <==>
      !(s.declaredType.Some? && s.declaredType.value.OtherType?)
  {
    if s.Type().OtherType? {
      var flag := EMPTY.(declaredType := Some(BooleanType));
      assert Example(flag, spec, n - 1) == Done(Bool(true));
      assert Example(s.(oneOf := [flag], anyOf := []), spec, n) == Done(Bool(true));
      assert Example(s.(oneOf := [], anyOf := []), spec, n) == Done(Null);
    } else if s.Type().ObjectType? {
      forall one, any ensures Example(s.(oneOf := one, anyOf := any), spec, n) == Example(s, spec, n) {
        var t := s.(oneOf := one, anyOf := any);
        assert ObjectExample(t, spec, n) == ObjectExample(s, spec, n);
      }
    }
  }
}

/**
 Validating an extracted value against a schema the contract accepts: capping the failures never hides that there
 are any.
 */
module SchemaContract {
  import opened Options
  import opened Seqs
  import opened JsonPointers

  const MAX_FAILURES := 32

  datatype Kind = StringKind | NumberKind | IntegerKind | BooleanKind

  /** Schemas as accepted: objects have properties, arrays have items, and only scalars have an enumeration. */
  datatype Schema =
    | ScalarSchema(kind: Kind, choices: Option<seq<Json>>)
    | ObjectSchema(properties: seq<Property>, required: seq<string>)
    | ArraySchema(items: Schema)

  datatype Property = Property(name: string, schema: Schema)

  datatype Code = TypeMismatch | EnumMismatch | RequiredMissing | AdditionalProperty

  datatype Failure = Failure(path: string, code: Code)

  function Step(path: string, name: string): string {
    path + "/" + PointerToken(name)
  }

  predicate KindMatches(kind: Kind, v: Json) {
    match kind
    case StringKind => v.Text?
    case NumberKind => v.Integer? || v.Float?
    case IntegerKind => v.Integer?
    case BooleanKind => v.Boolean?
  }

  predicate TypeMatches(s: Schema, v: Json) {
    match s
    case ScalarSchema(kind, _) => KindMatches(kind, v)
    case ObjectSchema(_, _) => v.Object?
    case ArraySchema(_) => v.Array?
  }

  /** The position of a member by name. */
  function Find(members: seq<Member>, name: string, k: nat): (r: Option<nat>)
    requires k <= |members|
    ensures r.Some? ==> k <= r.value < |members| && members[r.value].name == name
    ensures r.None? ==> forall i :: k <= i < |members| ==> members[i].name != name
    decreases |members| - k
  {
    if k == |members| then None else if members[k].name == name then Some(k) else Find(members, name, k + 1)
  }

  predicate Has(members: seq<Member>, name: string) {
    Find(members, name, 0).Some?
  }

  predicate Named(properties: seq<Property>, name: string) {
    exists i :: 0 <= i < |properties| && properties[i].name == name
  }

  // ---------------------------------------------------------------- all failures, uncapped

  function Missing(required: seq<string>, members: seq<Member>, path: string, k: nat): seq<Failure>
    requires k <= |required|
  {
    if k == 0 then []
    else
      Missing(required, members, path, k - 1)
      + if Has(members, required[k - 1]) then [] else [Failure(Step(path, required[k - 1]), RequiredMissing)]
  }

  function Additional(properties: seq<Property>, members: seq<Member>, path: string, k: nat): seq<Failure>
    requires k <= |members|
  {
    if k == 0 then []
    else
      Additional(properties, members, path, k - 1)
      + if Named(properties, members[k - 1].name) then []
          else [Failure(Step(path, members[k - 1].name), AdditionalProperty)]
  }

  function Failures(s: Schema, v: Json, path: string): seq<Failure>
    decreases s, 1
  {
    if !TypeMatches(s, v) then [Failure(path, TypeMismatch)]
    else
      match s
      case ScalarSchema(_, choices) =>
        if choices.Some? && v !in choices.value then [Failure(path, EnumMismatch)] else []
      case ObjectSchema(properties, required) =>
        Missing(required, v.members, path, |required|)
        + Additional(properties, v.members, path, |v.members|)
        + InProperties(s, v, path, |properties|)
      case ArraySchema(_) => InItems(s, v, path, |v.items|)
  }

  function InProperty(s: Schema, v: Json, path: string, k: nat): seq<Failure>
    requires s.ObjectSchema? && v.Object? && k < |s.properties|
    decreases s, 0, k
  {
    var p := s.properties[k];
    assert p < s;
    var at := Find(v.members, p.name, 0);
    if at.None? then [] else Failures(p.schema, v.members[at.value].value, Step(path, p.name))
  }

  function InProperties(s: Schema, v: Json, path: string, k: nat): seq<Failure>
    requires s.ObjectSchema? && v.Object? && k <= |s.properties|
    decreases s, 0, k
  {
    if k == 0 then [] else InProperties(s, v, path, k - 1) + InProperty(s, v, path, k - 1)
  }

  function InItems(s: Schema, v: Json, path: string, k: nat): seq<Failure>
    requires s.ArraySchema? && v.Array? && k <= |v.items|
    decreases s, 0, k
  {
    if k == 0 then []
    else InItems(s, v, path, k - 1) + Failures(s.items, v.items[k - 1], path + "/" + Decimal(k - 1))
  }

  // ---------------------------------------------------------------- the validator

  class Validator {
    var failures: seq<Failure>

    constructor ()
      ensures failures == []
    {
      failures := [];
    }

    method Validate(s: Schema, v: Json) returns (r: seq<Failure>)
      requires failures == []
      modifies this
      ensures r == Take(Failures(s, v, ""), MAX_FAILURES)
    {
      Visit(s, v, "", []);
      Units(Failures(s, v, ""));
      r := failures;
    }

    method Fail(path: string, code: Code, ghost before: seq<Failure>)
      requires failures == Take(before, MAX_FAILURES)
      modifies this
      ensures failures == Take(before + [Failure(path, code)], MAX_FAILURES)
    {
      if |failures| < MAX_FAILURES {
        failures := failures + [Failure(path, code)];
      }
    }

    /** Whatever was found before, the list goes on with this value's failures, as far as it has room. */
    method Visit(s: Schema, v: Json, path: string, ghost before: seq<Failure>)
      requires failures == Take(before, MAX_FAILURES)
      modifies this
      ensures failures == Take(before + Failures(s, v, path), MAX_FAILURES)
      decreases s, 1
    {
      if !TypeMatches(s, v) {
        Fail(path, TypeMismatch, before);
        return;
      }
      match s {
        case ScalarSchema(_, choices) =>
          if choices.Some? && v !in choices.value {
            Fail(path, EnumMismatch, before);
          } else {
            Units(before);
          }
        case ObjectSchema(_, _) => VisitObject(s, v, path, before);
        case ArraySchema(_) => VisitArray(s, v, path, before);
      }
    }

    method VisitObject(s: Schema, v: Json, path: string, ghost before: seq<Failure>)
      requires s.ObjectSchema? && v.Object? && failures == Take(before, MAX_FAILURES)
      modifies this
      ensures failures == Take(before + Failures(s, v, path), MAX_FAILURES)
      decreases s, 0
    {
      CheckNames(s, v, path, before);
      ghost var names := Missing(s.required, v.members, path, |s.required|)
                         + Additional(s.properties, v.members, path, |v.members|);
      Units(before + names);
      for k := 0 to |s.properties|
        invariant failures == Take(before + names + InProperties(s, v, path, k), MAX_FAILURES)
      {
        var p := s.properties[k];
        assert p < s;
        Assoc(before + names, InProperties(s, v, path, k), InProperty(s, v, path, k));
        var at := Find(v.members, p.name, 0);
        if at.Some? {
          Visit(p.schema, v.members[at.value].value, Step(path, p.name), before + names + InProperties(s, v, path, k));
        } else {
          Units(before + names + InProperties(s, v, path, k));
        }
      }
      Assoc(before, names, InProperties(s, v, path, |s.properties|));
    }

    /** Missing required members first, then members the schema does not know. */
    method CheckNames(s: Schema, v: Json, path: string, ghost before: seq<Failure>)
      requires s.ObjectSchema? && v.Object? && failures == Take(before, MAX_FAILURES)
      modifies this
      ensures failures == Take(before + (Missing(s.required, v.members, path, |s.required|)
                                         + Additional(s.properties, v.members, path, |v.members|)), MAX_FAILURES)
    {
      ghost var all := before;
      Units(before);
      for k := 0 to |s.required|
        invariant all == before + Missing(s.required, v.members, path, k) && failures == Take(all, MAX_FAILURES)
      {
        if !Has(v.members, s.required[k]) {
          Fail(Step(path, s.required[k]), RequiredMissing, all);
          all := all + [Failure(Step(path, s.required[k]), RequiredMissing)];
          Assoc(before, Missing(s.required, v.members, path, k),
                [Failure(Step(path, s.required[k]), RequiredMissing)]);
        } else {
          Units(Missing(s.required, v.members, path, k));
        }
      }
      ghost var missing := Missing(s.required, v.members, path, |s.required|);
      Units(all);
      for k := 0 to |v.members|
        invariant all == before + missing + Additional(s.properties, v.members, path, k)
        invariant failures == Take(all, MAX_FAILURES)
      {
        if !Named(s.properties, v.members[k].name) {
          var f := Failure(Step(path, v.members[k].name), AdditionalProperty);
          Fail(f.path, f.code, all);
          all := all + [f];
          Assoc(before + missing, Additional(s.properties, v.members, path, k), [f]);
        } else {
          Units(Additional(s.properties, v.members, path, k));
        }
      }
      Assoc(before, missing, Additional(s.properties, v.members, path, |v.members|));
    }

    method VisitArray(s: Schema, v: Json, path: string, ghost before: seq<Failure>)
      requires s.ArraySchema? && v.Array? && failures == Take(before, MAX_FAILURES)
      modifies this
      ensures failures == Take(before + Failures(s, v, path), MAX_FAILURES)
      decreases s, 0
    {
      Units(before);
      for k := 0 to |v.items|
        invariant failures == Take(before + InItems(s, v, path, k), MAX_FAILURES)
      {
        ghost var item := Failures(s.items, v.items[k], path + "/" + Decimal(k));
        Assoc(before, InItems(s, v, path, k), item);
        Visit(s.items, v.items[k], path + "/" + Decimal(k), before + InItems(s, v, path, k));
      }
    }
  }

  // ---------------------------------------------------------------- what validity means

  /** The value is of the schema, said without paths or failures. */
  predicate Conforms(s: Schema, v: Json)
    decreases s
  {
    match s
    case ScalarSchema(kind, choices) => KindMatches(kind, v) && (choices.Some? ==> v in choices.value)
    case ObjectSchema(properties, required) =>
      && v.Object?
      && (forall i :: 0 <= i < |required| ==> Has(v.members, required[i]))
      && (forall i :: 0 <= i < |v.members| ==> Named(properties, v.members[i].name))
      && (forall i :: 0 <= i < |properties| ==>
            var at := Find(v.members, properties[i].name, 0);
            at.Some? ==> Conforms(properties[i].schema, v.members[at.value].value))
    case ArraySchema(items) => v.Array? && forall i :: 0 <= i < |v.items| ==> Conforms(items, v.items[i])
  }

  predicate PropertyConforms(s: Schema, v: Json, i: nat)
    requires s.ObjectSchema? && v.Object? && i < |s.properties|
  {
    var at := Find(v.members, s.properties[i].name, 0);
    at.Some? ==> Conforms(s.properties[i].schema, v.members[at.value].value)
  }

  lemma {:induction false} MissingIffSome(required: seq<string>, members: seq<Member>, path: string, k: nat)
    requires k <= |required|
    ensures Missing(required, members, path, k) == [] <==> forall i :: 0 <= i < k ==> Has(members, required[i])
  {
    if k > 0 { MissingIffSome(required, members, path, k - 1); }
  }

  lemma {:induction false} AdditionalIffSome(properties: seq<Property>, members: seq<Member>, path: string, k: nat)
    requires k <= |members|
    ensures Additional(properties, members, path, k) == [] <==> forall i :: 0 <= i < k ==>
              Named(properties, members[i].name)
  {
    if k > 0 { AdditionalIffSome(properties, members, path, k - 1); }
  }

  lemma {:induction false} NoFailureIffConforms(s: Schema, v: Json, path: string)
    ensures Failures(s, v, path) == [] <==> Conforms(s, v)
    decreases s, 1
  {
    if TypeMatches(s, v) {
      match s {
        case ScalarSchema(_, _) =>
        case ObjectSchema(_, _) => ObjectIffConforms(s, v, path);
        case ArraySchema(_) => ItemsIffConform(s, v, path, |v.items|);
      }
    }
  }

  lemma {:induction false} ObjectIffConforms(s: Schema, v: Json, path: string)
    requires s.ObjectSchema? && v.Object?
    ensures Failures(s, v, path) == [] <==> Conforms(s, v)
    decreases s, 0, |s.properties| + 1
  {
    MissingIffSome(s.required, v.members, path, |s.required|);
    AdditionalIffSome(s.properties, v.members, path, |v.members|);
    PropertiesIffConform(s, v, path, |s.properties|);
    assert Failures(s, v, path) == Missing(s.required, v.members, path, |s.required|)
                                   + Additional(s.properties, v.members, path, |v.members|)
                                   + InProperties(s, v, path, |s.properties|);
    forall i | 0 <= i < |s.properties|
      ensures var p := s.properties[i]; var at := Find(v.members, p.name, 0);
              PropertyConforms(s, v, i) <==> (at.Some? ==> Conforms(p.schema, v.members[at.value].value))
    {
    }
  }

  lemma {:induction false} PropertiesIffConform(s: Schema, v: Json, path: string, k: nat)
    requires s.ObjectSchema? && v.Object? && k <= |s.properties|
    ensures InProperties(s, v, path, k) == [] <==> forall i :: 0 <= i < k ==> PropertyConforms(s, v, i)
    decreases s, 0, k
  {
    if k > 0 {
      PropertiesIffConform(s, v, path, k - 1);
      var p := s.properties[k - 1];
      assert p < s;
      var at := Find(v.members, p.name, 0);
      if at.Some? {
        var value := v.members[at.value].value;
        NoFailureIffConforms(p.schema, value, Step(path, p.name));
        assert InProperty(s, v, path, k - 1) == Failures(p.schema, value, Step(path, p.name));
        assert PropertyConforms(s, v, k - 1) <==> Conforms(p.schema, value);
      }
    }
  }

  lemma {:induction false} ItemsIffConform(s: Schema, v: Json, path: string, k: nat)
    requires s.ArraySchema? && v.Array? && k <= |v.items|
    ensures InItems(s, v, path, k) == [] <==> forall i :: 0 <= i < k ==> Conforms(s.items, v.items[i])
    decreases s, 0, k
  {
    if k > 0 {
      ItemsIffConform(s, v, path, k - 1);
      NoFailureIffConforms(s.items, v.items[k - 1], path + "/" + Decimal(k - 1));
    }
  }

  /** The capped list is empty exactly for values of the schema. */
  lemma {:induction false} CappedIffConforms(s: Schema, v: Json)
    ensures Take(Failures(s, v, ""), MAX_FAILURES) == [] <==> Conforms(s, v)
  {
    NoFailureIffConforms(s, v, "");
  }
}

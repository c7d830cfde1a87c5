/** Which failures a validation reports: exactly those found along some way into the value, at the pointer to it. */
module SchemaTrails {
  import opened Options
  import opened JsonPointers
  import opened SchemaContract

  /** A way into a value: by the name of a member or the index of an item, again and again. */
  datatype Hop = ByName(name: string) | ByIndex(index: nat)

  function PathOf(path: string, trail: seq<Hop>): string
    decreases |trail|
  {
    if trail == [] then path
    else
      var hop := trail[0];
      PathOf(path + "/" + (if hop.ByName? then PointerToken(hop.name) else Decimal(hop.index)), trail[1..])
  }

  predicate OfType(s: Schema, v: Json) {
    match s
    case ScalarSchema(StringKind, _) => v.Text?
    case ScalarSchema(NumberKind, _) => v.Integer? || v.Float?
    case ScalarSchema(IntegerKind, _) => v.Integer?
    case ScalarSchema(BooleanKind, _) => v.Boolean?
    case ObjectSchema(_, _) => v.Object?
    case ArraySchema(_) => v.Array?
  }

  /** The first member of that name. */
  predicate IsMember(members: seq<Member>, name: string, at: nat) {
    && at < |members| && members[at].name == name
    && forall i :: 0 <= i < at ==> members[i].name != name
  }

  predicate HasMember(members: seq<Member>, name: string) {
    exists i :: 0 <= i < |members| && members[i].name == name
  }

  predicate HasProperty(properties: seq<Property>, name: string) {
    exists i :: 0 <= i < |properties| && properties[i].name == name
  }

  /** What is wrong with the member an object has, or lacks, under a name. */
  predicate WrongMember(s: Schema, v: Json, name: string, code: Code)
    requires s.ObjectSchema? && v.Object?
  {
    match code
    case RequiredMissing => name in s.required && !HasMember(v.members, name)
    case AdditionalProperty => HasMember(v.members, name) && !HasProperty(s.properties, name)
    case _ => false
  }

  /** The value reached along the trail fails the schema reached with it, in this way. */
  predicate Fails(s: Schema, v: Json, trail: seq<Hop>, code: Code)
    decreases |trail|, 0
  {
    if trail == [] then
      || (code == TypeMismatch && !OfType(s, v))
      || (code == EnumMismatch && s.ScalarSchema? && OfType(s, v) && s.choices.Some? && v !in s.choices.value)
    else OfType(s, v) && FailsBelow(s, v, trail[0], trail[1..], code)
  }

  predicate FailsBelow(s: Schema, v: Json, hop: Hop, rest: seq<Hop>, code: Code)
    requires OfType(s, v)
    decreases |rest|, 2
  {
    match s
    case ScalarSchema(_, _) => false
    case ArraySchema(items) => hop.ByIndex? && hop.index < |v.items| && Fails(items, v.items[hop.index], rest, code)
    case ObjectSchema(properties, _) =>
      hop.ByName?
      && ((rest == [] && WrongMember(s, v, hop.name, code))
          || exists k, at :: 0 <= k < |properties| && 0 <= at < |v.members|
               && FailsInMember(properties[k], v.members, at, hop.name, rest, code))
  }

  predicate FailsInMember(p: Property, members: seq<Member>, at: nat, name: string, rest: seq<Hop>, code: Code)
    requires at < |members|
    decreases |rest|, 1
  {
    p.name == name && IsMember(members, name, at) && Fails(p.schema, members[at].value, rest, code)
  }

  lemma OfTypeIs(s: Schema, v: Json)
    ensures OfType(s, v) <==> TypeMatches(s, v)
  {
  }

  lemma {:induction false} PathOfHop(path: string, hop: Hop, rest: seq<Hop>)
    ensures PathOf(path, [hop] + rest)
         == PathOf(path + "/" + (if hop.ByName? then PointerToken(hop.name) else Decimal(hop.index)), rest)
  {
    assert ([hop] + rest)[1..] == rest;
  }

  lemma {:induction false} FindIs(members: seq<Member>, name: string)
    ensures Find(members, name, 0).Some? <==> HasMember(members, name)
    ensures forall at: nat :: IsMember(members, name, at) <==> Find(members, name, 0) == Some(at)
  {
    FindFirst(members, name, 0);
  }

  lemma {:induction false} FindFirst(members: seq<Member>, name: string, k: nat)
    requires k <= |members|
    ensures var at := Find(members, name, k);
            at.Some? ==> forall i :: k <= i < at.value ==> members[i].name != name
    decreases |members| - k
  {
    if k < |members| && members[k].name != name { FindFirst(members, name, k + 1); }
  }

  // ---------------------------------------------------------------- every failure is one

  lemma {:induction false} MissingIff(required: seq<string>, members: seq<Member>, path: string, k: nat, f: Failure)
    requires k <= |required|
    ensures f in Missing(required, members, path, k) <==>
            exists i :: 0 <= i < k && !Has(members, required[i])
              && f == Failure(Step(path, required[i]), RequiredMissing)
  {
    if k > 0 { MissingIff(required, members, path, k - 1, f); }
  }

  lemma {:induction false} AdditionalIff(properties: seq<Property>, members: seq<Member>, path: string, k: nat,
                                         f: Failure)
    requires k <= |members|
    ensures f in Additional(properties, members, path, k) <==>
            exists i :: 0 <= i < k && !Named(properties, members[i].name)
              && f == Failure(Step(path, members[i].name), AdditionalProperty)
  {
    if k > 0 { AdditionalIff(properties, members, path, k - 1, f); }
  }

  predicate InOne(s: Schema, v: Json, path: string, i: nat, f: Failure)
    requires s.ObjectSchema? && v.Object? && i < |s.properties|
  {
    f in InProperty(s, v, path, i)
  }

  lemma {:induction false} InPropertiesIff(s: Schema, v: Json, path: string, k: nat, f: Failure)
    requires s.ObjectSchema? && v.Object? && k <= |s.properties|
    ensures f in InProperties(s, v, path, k) <==> exists i :: 0 <= i < k && InOne(s, v, path, i, f)
  {
    if k > 0 {
      InPropertiesIff(s, v, path, k - 1, f);
      assert InOne(s, v, path, k - 1, f) <==> f in InProperty(s, v, path, k - 1);
    }
  }

  predicate InItem(s: Schema, v: Json, path: string, i: nat, f: Failure)
    requires s.ArraySchema? && v.Array? && i < |v.items|
  {
    f in Failures(s.items, v.items[i], path + "/" + Decimal(i))
  }

  lemma {:induction false} InItemsIff(s: Schema, v: Json, path: string, k: nat, f: Failure)
    requires s.ArraySchema? && v.Array? && k <= |v.items|
    ensures f in InItems(s, v, path, k) <==> exists i :: 0 <= i < k && InItem(s, v, path, i, f)
  {
    if k > 0 {
      InItemsIff(s, v, path, k - 1, f);
      assert InItem(s, v, path, k - 1, f) <==> f in Failures(s.items, v.items[k - 1], path + "/" + Decimal(k - 1));
    }
  }

  /** Each reported failure stands at the pointer of a trail along which it is found. */
  lemma {:induction false} FailureFound(s: Schema, v: Json, path: string, f: Failure) returns (trail: seq<Hop>)
    requires f in Failures(s, v, path)
    ensures f.path == PathOf(path, trail) && Fails(s, v, trail, f.code)
    decreases s
  {
    OfTypeIs(s, v);
    if !TypeMatches(s, v) || s.ScalarSchema? {
      trail := [];
    } else if s.ArraySchema? {
      InItemsIff(s, v, path, |v.items|, f);
      var i :| 0 <= i < |v.items| && InItem(s, v, path, i, f);
      var rest := FailureFound(s.items, v.items[i], path + "/" + Decimal(i), f);
      trail := [ByIndex(i)] + rest;
      PathOfHop(path, ByIndex(i), rest);
      assert trail[1..] == rest;
    } else {
      trail := MemberFound(s, v, path, f);
    }
  }

  lemma {:induction false} MemberFound(s: Schema, v: Json, path: string, f: Failure) returns (trail: seq<Hop>)
    requires s.ObjectSchema? && v.Object? && f in Failures(s, v, path)
    ensures f.path == PathOf(path, trail) && Fails(s, v, trail, f.code)
    decreases s, 0
  {
    MissingIff(s.required, v.members, path, |s.required|, f);
    AdditionalIff(s.properties, v.members, path, |v.members|, f);
    InPropertiesIff(s, v, path, |s.properties|, f);
    if f in Missing(s.required, v.members, path, |s.required|) {
      var i :| 0 <= i < |s.required| && !Has(v.members, s.required[i])
        && f == Failure(Step(path, s.required[i]), RequiredMissing);
      trail := [ByName(s.required[i])];
      FindIs(v.members, s.required[i]);
      HereIs(s, v, s.required[i], RequiredMissing, path);
    } else if f in Additional(s.properties, v.members, path, |v.members|) {
      var i :| 0 <= i < |v.members| && !Named(s.properties, v.members[i].name)
        && f == Failure(Step(path, v.members[i].name), AdditionalProperty);
      trail := [ByName(v.members[i].name)];
      HereIs(s, v, v.members[i].name, AdditionalProperty, path);
    } else {
      var k :| 0 <= k < |s.properties| && InOne(s, v, path, k, f);
      var p := s.properties[k];
      assert p < s;
      FindIs(v.members, p.name);
      var at := Find(v.members, p.name, 0).value;
      var rest := FailureFound(p.schema, v.members[at].value, Step(path, p.name), f);
      trail := [ByName(p.name)] + rest;
      PathOfHop(path, ByName(p.name), rest);
      assert trail[1..] == rest;
      assert FailsInMember(p, v.members, at, p.name, rest, f.code);
    }
  }

  lemma {:induction false} HereIs(s: Schema, v: Json, name: string, code: Code, path: string)
    requires s.ObjectSchema? && v.Object? && WrongMember(s, v, name, code)
    ensures Fails(s, v, [ByName(name)], code) && PathOf(path, [ByName(name)]) == Step(path, name)
  {
    assert [ByName(name)][1..] == [];
  }

  // ---------------------------------------------------------------- every one is reported

  /** What fails along a trail is reported at its pointer. */
  lemma {:induction false} FailureReported(s: Schema, v: Json, path: string, trail: seq<Hop>, code: Code)
    requires Fails(s, v, trail, code)
    ensures Failure(PathOf(path, trail), code) in Failures(s, v, path)
    decreases s
  {
    OfTypeIs(s, v);
    var f := Failure(PathOf(path, trail), code);
    if trail != [] {
      var hop, rest := trail[0], trail[1..];
      assert trail == [hop] + rest;
      PathOfHop(path, hop, rest);
      if s.ArraySchema? {
        FailureReported(s.items, v.items[hop.index], path + "/" + Decimal(hop.index), rest, code);
        assert InItem(s, v, path, hop.index, f);
        InItemsIff(s, v, path, |v.items|, f);
      } else {
        MemberReported(s, v, path, hop.name, rest, code);
      }
    }
  }

  lemma {:induction false} MemberReported(s: Schema, v: Json, path: string, name: string, rest: seq<Hop>, code: Code)
    requires s.ObjectSchema? && v.Object? && FailsBelow(s, v, ByName(name), rest, code)
    ensures Failure(PathOf(Step(path, name), rest), code) in Failures(s, v, path)
    decreases s, 0
  {
    var f := Failure(PathOf(Step(path, name), rest), code);
    MissingIff(s.required, v.members, path, |s.required|, f);
    AdditionalIff(s.properties, v.members, path, |v.members|, f);
    InPropertiesIff(s, v, path, |s.properties|, f);
    FindIs(v.members, name);
    if rest == [] && WrongMember(s, v, name, code) {
      if code == RequiredMissing {
        var i :| 0 <= i < |s.required| && s.required[i] == name;
        assert !Has(v.members, s.required[i]) && f == Failure(Step(path, s.required[i]), RequiredMissing);
      } else {
        var i :| 0 <= i < |v.members| && v.members[i].name == name;
        assert !Named(s.properties, v.members[i].name) && f == Failure(Step(path, name), AdditionalProperty);
      }
    } else {
      var k, at :| 0 <= k < |s.properties| && 0 <= at < |v.members|
        && FailsInMember(s.properties[k], v.members, at, name, rest, code);
      var p := s.properties[k];
      assert p < s;
      FailureReported(p.schema, v.members[at].value, Step(path, name), rest, code);
      assert InOne(s, v, path, k, f);
    }
  }

  /** A failure is reported if and only if it is found along a trail, and stands at the pointer of that trail. */
  lemma {:induction false} FailureIffFound(s: Schema, v: Json, path: string, f: Failure)
    ensures f in Failures(s, v, path) <==> exists trail :: f.path == PathOf(path, trail) && Fails(s, v, trail, f.code)
  {
    if f in Failures(s, v, path) {
      var trail := FailureFound(s, v, path, f);
    } else if trail :| f.path == PathOf(path, trail) && Fails(s, v, trail, f.code) {
      FailureReported(s, v, path, trail, f.code);
    }
  }
}

/** Which types the value generator can serve, and for which of them a value of the wrong type can come
    out. */
module AttrValueRuns {
  import opened Wrappers
  import opened Choices
  import opened SchemaTypes
  import opened AttrValues
  import Hierarchies

  /** Different fields of a record have different names. */
  ghost predicate UniqueKeys(ty: Type)
    decreases ty
  {
    match ty
    case SetType(element) => UniqueKeys(element)
    case RecordType(fields) => (forall f <- fields :: UniqueKeys(f.ty)) && KeysOnce(fields)
    case _ => true
  }

  ghost predicate KeysOnce(fields: seq<Field>) {
    forall i, j | 0 <= i < j < |fields| :: fields[i].key != fields[j].key
  }

  // ----- what can be generated -----

  lemma DrawUid(s: Settings, ty: Name, rest: Unstructured) returns (u: Unstructured)
    requires CanDrawUid(s, ty)
    ensures ArbitraryUid(s, ty, u).Ok? && ArbitraryUid(s, ty, u).value.1 == rest
  {
    if ty in s.enumChoices ==> s.enumChoices[ty] != [] {
      var made := [if ty in s.enumChoices then Pick(0) else Text("")] + rest;
      u := if s.uidsByType.None? then made else [Flip(false)] + made;
      assert made[1..] == rest;
      if s.uidsByType.Some? { assert u[1..] == made; }
    } else {
      u := [Flip(true), Pick(0)] + rest;
      assert u[1..][1..] == rest;
    }
  }

  lemma DrawExtCall(s: Settings, ty: Type, rest: Unstructured) returns (u: Unstructured)
    requires ty == IpAddrType || ty == DecimalType || ty == DateTimeType || ty == DurationType
    requires s.matchTypes
    ensures ArbitraryExtCall(s, ty, u).Ok? && ArbitraryExtCall(s, ty, u).value.1 == rest
  {
    u := [Pick(0), Text("")] + rest;
    assert u[1..][1..] == rest;
    FirstConstructor(ty);
  }

  lemma FirstConstructor(ty: Type)
    requires ty == IpAddrType || ty == DecimalType || ty == DateTimeType || ty == DurationType
    ensures ConstructorsFor(ty, 0) != [] && ConstructorsFor(ty, 0)[0].fn != "offset"
  {
    assert CONSTRUCTORS[0] == Constructor("ip", [StringType], IpAddrType);
    assert ConstructorsFor(ty, 4) == (if ty == DurationType then [CONSTRUCTORS[4]] else []) + ConstructorsFor(ty, 5);
    assert ConstructorsFor(ty, 2) == (if ty == DateTimeType then [CONSTRUCTORS[2]] else []) + ConstructorsFor(ty, 3);
    assert ConstructorsFor(ty, 1) == (if ty == DecimalType then [CONSTRUCTORS[1]] else []) + ConstructorsFor(ty, 2);
  }

  // ----- the fields drawn do not depend on those before -----

  function OntoRecord(attrs: map<string, Value>, r: Drawn<(Value, Unstructured)>): Drawn<(Value, Unstructured)> {
    match r
    case Err(e) => Err(e)
    case Ok(drawn) => if drawn.0.RecordLit? then Ok((RecordLit(attrs + drawn.0.attrs), drawn.1)) else r
  }

  predicate IsRecord(r: Drawn<(Value, Unstructured)>) {
    r.Ok? && r.value.0.RecordLit?
  }

  lemma {:induction false} FieldsAfter(
      s: Settings, fields: seq<Field>, depth: nat, attrs: map<string, Value>, u: Unstructured)
    ensures GenerateFields(s, fields, depth, attrs, u) == OntoRecord(attrs, GenerateFields(s, fields, depth, map[], u))
    ensures var alone := GenerateFields(s, fields, depth, map[], u);
            alone.Ok? ==> IsRecord(alone) && forall k | k in alone.value.0.attrs :: exists f <- fields :: f.key == k
    decreases fields
  {
    if fields == [] {
      assert attrs + map[] == attrs;
    } else if ReadChosen(fields[0].required, u).Ok? {
      var f := fields[0];
      assert f in fields;
      var (chosen, u1) := ReadChosen(f.required, u).value;
      if !chosen {
        FieldsAfter(s, fields[1..], depth, attrs, u1);
      } else if GenerateValue(s, f.ty, depth, u1).Ok? {
        var (v, u2) := GenerateValue(s, f.ty, depth, u1).value;
        var one: map<string, Value> := map[f.key := v];
        var rest := GenerateFields(s, fields[1..], depth, map[], u2);
        FieldsAfter(s, fields[1..], depth, attrs[f.key := v], u2);
        FieldsAfter(s, fields[1..], depth, one, u2);
        assert map[][f.key := v] == one;
        if IsRecord(rest) {
          assert attrs[f.key := v] + rest.value.0.attrs == attrs + (one + rest.value.0.attrs);
        }
      }
    }
  }

  // ----- runs -----

  lemma {:induction false} GenerateSome(s: Settings, ty: Type, depth: nat, rest: Unstructured)
    returns (u: Unstructured)
    requires CanGenerate(s, ty, depth)
    ensures GenerateValue(s, ty, depth, u).Ok? && GenerateValue(s, ty, depth, u).value.1 == rest
    decreases ty
  {
    match ty {
      case BoolType => u := [Flip(false)] + rest;
      case LongType => u := [Pick(0)] + rest;
      case StringType => u := [Text("")] + rest;
      case EntityType(name) => u := DrawUid(s, name, rest);
      case SetType(element) =>
        u := if depth > 0 && s.maxWidth > 0 then [Flip(false)] + rest else rest;
      case RecordType(fields) =>
        u := rest;
        if depth > 0 { u := GenerateSomeFields(s, fields, depth - 1, map[], rest); }
      case _ => u := DrawExtCall(s, ty, rest);
    }
  }

  /** Optional fields are left out. */
  lemma {:induction false} GenerateSomeFields(
      s: Settings, fields: seq<Field>, depth: nat, attrs: map<string, Value>, rest: Unstructured)
    returns (u: Unstructured)
    requires forall f <- fields :: f.required ==> CanGenerate(s, f.ty, depth)
    ensures GenerateFields(s, fields, depth, attrs, u).Ok? && GenerateFields(s, fields, depth, attrs, u).value.1 == rest
    decreases fields
  {
    u := rest;
    if fields != [] {
      assert fields[0] in fields;
      var u1 := GenerateSomeFields(s, fields[1..], depth, attrs, rest);
      u := PassField(s, fields[0], depth, u1);
      NextField(s, fields, depth, attrs, u, u1);
    }
  }

  /** A value for a required field, and a coin against an optional one */
  lemma {:induction false} PassField(s: Settings, f: Field, depth: nat, rest: Unstructured) returns (u: Unstructured)
    requires f.required ==> CanGenerate(s, f.ty, depth)
    ensures Passes(s, f, depth, u, rest)
    decreases f, 1
  {
    if f.required {
      u := GenerateSome(s, f.ty, depth, rest);
    } else {
      u := [Flip(false)] + rest;
      assert u[1..] == rest;
    }
  }

  ghost predicate Passes(s: Settings, f: Field, depth: nat, u: Unstructured, rest: Unstructured) {
    && ReadChosen(f.required, u).Ok?
    && var (chosen, u1) := ReadChosen(f.required, u).value;
    if chosen then GenerateValue(s, f.ty, depth, u1).Ok? && GenerateValue(s, f.ty, depth, u1).value.1 == rest
    else u1 == rest
  }

  ghost predicate Extends(more: map<string, Value>, attrs: map<string, Value>) {
    forall k | k in attrs :: k in more && more[k] == attrs[k]
  }

  lemma NextField(
      s: Settings, fields: seq<Field>, depth: nat, attrs: map<string, Value>, u: Unstructured, u1: Unstructured)
    requires fields != [] && Passes(s, fields[0], depth, u, u1)
    ensures var rest := GenerateFields(s, fields[1..], depth, attrs, u1);
            rest.Ok? ==>
              var all := GenerateFields(s, fields, depth, attrs, u);
              && all.Ok? && all.value.1 == rest.value.1
              && (attrs == map[] ==> IsRecord(rest) && IsRecord(all) && Extends(all.value.0.attrs, rest.value.0.attrs))
  {
    var f := fields[0];
    var (chosen, u2) := ReadChosen(f.required, u).value;
    FieldsAfter(s, fields[1..], depth, attrs, u1);
    if chosen {
      var v := GenerateValue(s, f.ty, depth, u2).value.0;
      FieldsAfter(s, fields[1..], depth, attrs[f.key := v], u1);
    }
  }

  /** Some run generates a value if and only if the type can be served. */
  lemma CanGenerateIff(s: Settings, ty: Type, depth: nat)
    ensures CanGenerate(s, ty, depth) <==> exists u :: GenerateValue(s, ty, depth, u).Ok?
  {
    if CanGenerate(s, ty, depth) { var u := GenerateSome(s, ty, depth, []); }
    if u :| GenerateValue(s, ty, depth, u).Ok? { GeneratedCan(s, ty, depth, u); }
  }

  // ----- runs with a value of the wrong type -----

  ghost predicate Mistypes(s: Settings, ty: Type, depth: nat, u: Unstructured, rest: Unstructured) {
    var r := GenerateValue(s, ty, depth, u);
    r.Ok? && r.value.1 == rest && !HasType(r.value.0, ty)
  }

  lemma {:induction false} MistypeSome(s: Settings, ty: Type, depth: nat, rest: Unstructured) returns (u: Unstructured)
    requires CanMistype(s, ty, depth) && UniqueKeys(ty)
    ensures Mistypes(s, ty, depth, u, rest)
    decreases ty
  {
    match ty {
      case SetType(element) =>
        var stop := if s.maxWidth > 1 then [Flip(false)] + rest else rest;
        var u1 := MistypeSome(s, element, depth - 1, stop);
        u := [Flip(true)] + u1;
        assert u[1..] == u1 && stop[|stop| - |rest|..] == rest;
        MistypedElement(s, element, depth, u, u1, stop, rest);
      case RecordType(fields) =>
        u := rest;
        if depth > 0 {
          var j :| 0 <= j < |fields| && CanMistype(s, fields[j].ty, depth - 1);
          assert forall f <- fields :: UniqueKeys(f.ty);
          u := MistypeField(s, fields, depth - 1, j, rest);
          MistypedRecord(fields, GenerateFields(s, fields, depth - 1, map[], u).value.0, j);
        }
    }
  }

  lemma MistypedElement(
      s: Settings, element: Type, depth: nat, u: Unstructured, u1: Unstructured, stop: Unstructured, rest: Unstructured)
    requires depth > 0 && s.maxWidth > 0 && u == [Flip(true)] + u1
    requires stop == if s.maxWidth > 1 then [Flip(false)] + rest else rest
    requires Mistypes(s, element, depth - 1, u1, stop)
    ensures Mistypes(s, SetType(element), depth, u, rest)
  {
    var v := GenerateValue(s, element, depth - 1, u1).value.0;
    var none: seq<Value> := [];
    assert u[1..] == u1 && none + [v] == [v];
    StopAfter(s, element, depth - 1, s.maxWidth - 1, [v], rest);
    assert v in [v];
  }

  lemma StopAfter(s: Settings, element: Type, depth: nat, n: nat, l: seq<Value>, rest: Unstructured)
    ensures GenerateElements(s, element, depth, n, l, if n > 0 then [Flip(false)] + rest else rest)
         == Ok((SetLit(l), rest))
  {
    assert ([Flip(false)] + rest)[1..] == rest;
  }

  lemma MistypedRecord(fields: seq<Field>, v: Value, j: nat)
    requires KeysOnce(fields) && j < |fields| && v.RecordLit?
    requires fields[j].key in v.attrs && !HasType(v.attrs[fields[j].key], fields[j].ty)
    ensures !HasType(v, RecordType(fields))
  {
    forall f | f in fields && f.key == fields[j].key
      ensures f == fields[j]
    {
      var i :| 0 <= i < |fields| && fields[i] == f;
      assert i == j;
    }
  }

  ghost predicate BadField(s: Settings, fields: seq<Field>, depth: nat, j: nat, u: Unstructured, rest: Unstructured)
    requires j < |fields|
  {
    var r := GenerateFields(s, fields, depth, map[], u);
    && IsRecord(r) && r.value.1 == rest && fields[j].key in r.value.0.attrs
    && !HasType(r.value.0.attrs[fields[j].key], fields[j].ty)
  }

  lemma {:induction false} MistypeField(s: Settings, fields: seq<Field>, depth: nat, j: nat, rest: Unstructured)
    returns (u: Unstructured)
    requires j < |fields| && KeysOnce(fields) && (forall f <- fields :: UniqueKeys(f.ty))
    requires forall f <- fields :: f.required ==> CanGenerate(s, f.ty, depth)
    requires CanMistype(s, fields[j].ty, depth)
    ensures BadField(s, fields, depth, j, u, rest)
    decreases fields
  {
    var f := fields[0];
    assert f in fields;
    assert KeysOnce(fields[1..]);
    if j == 0 {
      var u2 := GenerateSomeFields(s, fields[1..], depth, map[], rest);
      var u1 := MistypeSome(s, f.ty, depth, u2);
      u := if f.required then u1 else [Flip(true)] + u1;
      assert !f.required ==> u[1..] == u1;
      BadFirst(s, fields, depth, u, u1, u2, rest);
    } else {
      var u1 := MistypeField(s, fields[1..], depth, j - 1, rest);
      u := PassField(s, f, depth, u1);
      NextField(s, fields, depth, map[], u, u1);
    }
  }

  lemma BadFirst(
      s: Settings, fields: seq<Field>, depth: nat, u: Unstructured, u1: Unstructured, u2: Unstructured,
      rest: Unstructured)
    requires fields != [] && KeysOnce(fields) && ReadChosen(fields[0].required, u) == Ok((true, u1))
    requires Mistypes(s, fields[0].ty, depth, u1, u2)
    requires GenerateFields(s, fields[1..], depth, map[], u2).Ok?
    requires GenerateFields(s, fields[1..], depth, map[], u2).value.1 == rest
    ensures BadField(s, fields, depth, 0, u, rest)
  {
    var f := fields[0];
    var v := GenerateValue(s, f.ty, depth, u1).value.0;
    FieldsAfter(s, fields[1..], depth, map[][f.key := v], u2);
    forall x | x in fields[1..]
      ensures x.key != f.key
    {
      var i :| 0 <= i < |fields[1..]| && fields[1..][i] == x;
      assert fields[i + 1] == x;
    }
  }

  ghost predicate TypedRun(s: Settings, ty: Type, depth: nat, u: Unstructured) {
    GenerateValue(s, ty, depth, u).Ok? ==> HasType(GenerateValue(s, ty, depth, u).value.0, ty)
  }

  /** Exactly when every value has the type: when no record at the depth bound that a run can get to
      needs an attribute. */
  lemma AlwaysTypedIff(s: Settings, ty: Type, depth: nat)
    requires Indexed(s) && UniqueKeys(ty)
    ensures (forall u :: TypedRun(s, ty, depth, u)) <==> !CanMistype(s, ty, depth)
  {
    if CanMistype(s, ty, depth) {
      var u := MistypeSome(s, ty, depth, []);
      assert !TypedRun(s, ty, depth, u);
    } else {
      forall u
        ensures TypedRun(s, ty, depth, u)
      {
        if GenerateValue(s, ty, depth, u).Ok? { UncutTyped(s, ty, depth, u); }
      }
    }
  }

  /** Everything in the type can be served. */
  predicate AllGenerate(s: Settings, ty: Type, depth: nat)
    decreases ty
  {
    && CanGenerate(s, ty, depth)
    && match ty
       case SetType(element) => depth > 0 ==> AllGenerate(s, element, depth - 1)
       case RecordType(fields) => depth > 0 ==> forall f <- fields :: AllGenerate(s, f.ty, depth - 1)
       case _ => true
  }

  /** Where sets may have elements and everything can be served, every value has the type if and only if
      the type fits the depth. */
  lemma {:induction false} UnfitMistyped(s: Settings, ty: Type, depth: nat)
    requires s.maxWidth > 0 && AllGenerate(s, ty, depth)
    ensures CanMistype(s, ty, depth) <==> !Fits(ty, depth)
    decreases ty
  {
    if Fits(ty, depth) { FitsNotMistyped(s, ty, depth); }
    match ty
    case SetType(element) => if depth > 0 { UnfitMistyped(s, element, depth - 1); }
    case RecordType(fields) =>
      if depth > 0 {
        forall f | f in fields
          ensures CanMistype(s, f.ty, depth - 1) <==> !Fits(f.ty, depth - 1)
        {
          UnfitMistyped(s, f.ty, depth - 1);
        }
      }
    case _ =>
  }
}

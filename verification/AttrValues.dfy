/** Schema types of bounded depth, and attribute values of bounded depth for the types they denote. */
module AttrValues {
  import opened Wrappers
  import opened Choices
  import opened SchemaTypes
  import opened CommonTypesProofs
  import opened SchemaGenerator
  import Hierarchies
  import HierarchyUids

  // ----- values and their types -----

  datatype Value =
    | BoolLit(b: bool)
    | IntLit(i: int)
    | StringLit(s: string)
    | UidLit(ty: Name, eid: string)
    | ExtFuncCall(fn: string, args: seq<Value>)
    | SetLit(elts: seq<Value>)
    | RecordLit(attrs: map<string, Value>)

  /** The extension constructors: name, parameter types and return type */
  datatype Constructor = Constructor(fn: string, parameters: seq<Type>, result: Type)

  const CONSTRUCTORS: seq<Constructor> := [
    Constructor("ip", [StringType], IpAddrType),
    Constructor("decimal", [StringType], DecimalType),
    Constructor("datetime", [StringType], DateTimeType),
    Constructor("offset", [DateTimeType, DurationType], DateTimeType),
    Constructor("duration", [StringType], DurationType)
  ]

  /** The value is a literal of the type; records have every required attribute and no foreign one;
      extension values are calls of a constructor that returns the type, on arguments of its
      parameter types. */
  ghost predicate HasType(v: Value, ty: Type)
    decreases v
  {
    match v
    case BoolLit(_) => ty == BoolType
    case IntLit(_) => ty == LongType
    case StringLit(_) => ty == StringType
    case UidLit(name, _) => ty == EntityType(name)
    case ExtFuncCall(fn, args) =>
      exists c <- CONSTRUCTORS ::
        && c.fn == fn && c.result == ty && |args| == |c.parameters|
        && forall i | 0 <= i < |args| :: HasType(args[i], c.parameters[i])
    case SetLit(elts) => ty.SetType? && forall e <- elts :: HasType(e, ty.element)
    case RecordLit(attrs) =>
      && ty.RecordType?
      && (forall f <- ty.fields :: f.required ==> f.key in attrs)
      && (forall k | k in attrs :: exists f <- ty.fields :: f.key == k && HasType(attrs[k], f.ty))
  }

  /** Below `depth` levels no record has a required attribute. */
  ghost predicate Fits(ty: Type, depth: nat)
    decreases ty
  {
    match ty
    case SetType(element) => depth > 0 ==> Fits(element, depth - 1)
    case RecordType(fields) =>
      if depth == 0 then forall f <- fields :: !f.required
      else forall f <- fields :: Fits(f.ty, depth - 1)
    case _ => true
  }

  /** A type from the bounded generator, resolved, fits the same bound. */
  lemma {:induction false} BoundedTypeFits(
      additional: bool, entityTypes: seq<Name>, depth: nat, u: Unstructured, namespace: Option<Name>)
    requires ArbitrarySchemaType(additional, entityTypes, depth, u).Ok?
    ensures var outcome := Meaning(namespace, ArbitrarySchemaType(additional, entityTypes, depth, u).value.0);
            outcome.Done? && Fits(outcome.value, depth)
    decreases depth, 1, 0
  {
    GeneratedTypePlain(additional, entityTypes, depth, u, namespace);
    var (x, u1) := ReadIndex(u, 10).value;
    if x == 3 && depth > 0 {
      BoundedTypeFits(additional, entityTypes, depth - 1, u1, namespace);
    } else if x == 4 && depth > 0 {
      var (names, u2) := ReadNames([], u1).value;
      BoundedAttributesFit(additional, entityTypes, depth - 1, names, u2, namespace);
      AttributesResolve(ArbitraryAttributes(additional, entityTypes, depth - 1, names, u2).value.0, namespace);
    } else {
      assert ResolveAttributes(map[], namespace, [], 0) == Done([]);
    }
  }

  lemma {:induction false} BoundedAttributesFit(
      additional: bool, entityTypes: seq<Name>, depth: nat, names: seq<string>, u: Unstructured,
      namespace: Option<Name>)
    requires ArbitraryAttributes(additional, entityTypes, depth, names, u).Ok?
    ensures forall a <- ArbitraryAttributes(additional, entityTypes, depth, names, u).value.0 ::
              Meaning(namespace, a.ty).Done? && Fits(Meaning(namespace, a.ty).value, depth)
    decreases depth, 2, |names|
  {
    if names != [] {
      var (ty, u1) := ArbitrarySchemaType(additional, entityTypes, depth, u).value;
      var (required, u2) := ReadFlip(u1).value;
      var (notes, u3) := ReadNotes(u2).value;
      var later := ArbitraryAttributes(additional, entityTypes, depth, names[1..], u3).value.0;
      BoundedTypeFits(additional, entityTypes, depth, u, namespace);
      BoundedAttributesFit(additional, entityTypes, depth, names[1..], u3, namespace);
      PutFirstMembers(Attribute(names[0], ty, required, notes), later);
    }
  }

  // ----- the value generator -----

  /** What the generator draws from: the entities of a hierarchy by type, if there is one, the
      choices of enumerated types, and the limit on loops */
  datatype Settings = Settings(
    uidsByType: Option<map<Name, seq<Hierarchies.EntityUid>>>,
    enumChoices: map<Name, seq<string>>,
    matchTypes: bool,
    maxWidth: nat)

  /** The index lists uids under their own type. */
  ghost predicate Indexed(s: Settings) {
    s.uidsByType.Some? ==>
      forall ty | ty in s.uidsByType.value :: forall uid <- s.uidsByType.value[ty] :: uid.ty == ty
  }

  function GenerateUid(s: Settings, ty: Name, u: Unstructured): Drawn<(Value, Unstructured)> {
    var (uid, u1) :- HierarchyUids.GenerateUid(ty, s.enumChoices, u);
    Ok((UidLit(uid.ty, uid.eid), u1))
  }

  /** `arbitrary_uid_with_type`, of the expression generator and of the hierarchy */
  function ArbitraryUid(s: Settings, ty: Name, u: Unstructured): Drawn<(Value, Unstructured)> {
    match s.uidsByType
    case None => GenerateUid(s, ty, u)
    case Some(index) =>
      var (existing, u1) :- ReadFlip(u);
      if !existing then GenerateUid(s, ty, u1)
      else if ty !in index then Err(EmptyChoose)
      else
        var (i, u2) :- ReadIndex(u1, |index[ty]|);
        Ok((UidLit(index[ty][i].ty, index[ty][i].eid), u2))
  }

  function ConstructorsFor(ty: Type, from: nat): seq<Constructor>
    requires from <= |CONSTRUCTORS|
    decreases |CONSTRUCTORS| - from
  {
    if from == |CONSTRUCTORS| then []
    else (if CONSTRUCTORS[from].result == ty then [CONSTRUCTORS[from]] else []) + ConstructorsFor(ty, from + 1)
  }

  /** `arbitrary_ext_constructor_call_for_type` */
  function ArbitraryExtCall(s: Settings, ty: Type, u: Unstructured): Drawn<(Value, Unstructured)> {
    var choices := if s.matchTypes then ConstructorsFor(ty, 0) else [];
    var (i, u1) :- ReadIndex(u, |choices|);
    var fn := choices[i].fn;
    var (text, u2) :- ReadText(u1);
    if fn == "offset" then
      var (text', u3) :- ReadText(u2);
      var args := [ExtFuncCall("datetime", [StringLit(text)]), ExtFuncCall("duration", [StringLit(text')])];
      Ok((ExtFuncCall(fn, args), u3))
    else Ok((ExtFuncCall(fn, [StringLit(text)]), u2))
  }

  lemma {:induction false} ConstructorsReturn(ty: Type, from: nat)
    requires from <= |CONSTRUCTORS|
    ensures forall c <- ConstructorsFor(ty, from) :: c in CONSTRUCTORS && c.result == ty
    decreases |CONSTRUCTORS| - from
  {
    if from < |CONSTRUCTORS| { ConstructorsReturn(ty, from + 1); }
  }

  lemma TextCallTyped(c: Constructor, text: string)
    requires c in CONSTRUCTORS && c.parameters == [StringType]
    ensures HasType(ExtFuncCall(c.fn, [StringLit(text)]), c.result)
  {
  }

  lemma OffsetCallTyped(text: string, text': string)
    ensures HasType(
              ExtFuncCall("offset",
                          [ExtFuncCall("datetime", [StringLit(text)]), ExtFuncCall("duration", [StringLit(text')])]),
              DateTimeType)
  {
    var datetime, offset, duration := CONSTRUCTORS[2], CONSTRUCTORS[3], CONSTRUCTORS[4];
    assert datetime in CONSTRUCTORS && offset in CONSTRUCTORS && duration in CONSTRUCTORS;
    TextCallTyped(datetime, text);
    TextCallTyped(duration, text');
    var args := [ExtFuncCall("datetime", [StringLit(text)]), ExtFuncCall("duration", [StringLit(text')])];
    assert forall i | 0 <= i < 2 :: HasType(args[i], offset.parameters[i]);
  }

  lemma ConstructorKinds(c: Constructor)
    requires c in CONSTRUCTORS
    ensures if c.fn == "offset" then c.result == DateTimeType else c.parameters == [StringType]
  {
  }

  lemma ExtCallTyped(s: Settings, ty: Type, u: Unstructured)
    ensures ArbitraryExtCall(s, ty, u).Ok? ==> HasType(ArbitraryExtCall(s, ty, u).value.0, ty)
  {
    var choices := if s.matchTypes then ConstructorsFor(ty, 0) else [];
    if ArbitraryExtCall(s, ty, u).Ok? {
      ConstructorsReturn(ty, 0);
      var (i, u1) := ReadIndex(u, |choices|).value;
      var c := choices[i];
      assert c in choices;
      ConstructorKinds(c);
      var (text, u2) := ReadText(u1).value;
      if c.fn == "offset" {
        OffsetCallTyped(text, ReadText(u2).value.0);
      } else {
        TextCallTyped(c, text);
      }
    }
  }

  // ----- what a run of the value generator computes -----

  function GenerateValue(s: Settings, ty: Type, maxDepth: nat, u: Unstructured): Drawn<(Value, Unstructured)>
    decreases maxDepth, 0, 0
  {
    match ty
    case BoolType =>
      var (b, u1) :- ReadFlip(u);
      Ok((BoolLit(b), u1))
    case LongType =>
      var (i, u1) :- ReadIndex(u, 0x1_0000_0000_0000_0000);
      Ok((IntLit(i as int - 0x8000_0000_0000_0000), u1))
    case StringType =>
      var (text, u1) :- ReadText(u);
      Ok((StringLit(text), u1))
    case EntityType(name) => ArbitraryUid(s, name, u)
    case SetType(element) =>
      if maxDepth == 0 then Ok((SetLit([]), u)) else GenerateElements(s, element, maxDepth - 1, s.maxWidth, [], u)
    case RecordType(fields) =>
      if maxDepth == 0 then Ok((RecordLit(map[]), u)) else GenerateFields(s, fields, maxDepth - 1, map[], u)
    case _ =>
      if maxDepth == 0 then Err(TooDeep) else ArbitraryExtCall(s, ty, u)
  }

  /** `l`, and up to `n` elements more */
  function GenerateElements(s: Settings, element: Type, maxDepth: nat, n: nat, l: seq<Value>, u: Unstructured)
    : Drawn<(Value, Unstructured)>
    decreases maxDepth, 1, n
  {
    if n == 0 then Ok((SetLit(l), u))
    else
      var (more, u1) :- ReadFlip(u);
      if !more then Ok((SetLit(l), u1))
      else
        var (v, u2) :- GenerateValue(s, element, maxDepth, u1);
        GenerateElements(s, element, maxDepth, n - 1, l + [v], u2)
  }

  function ReadChosen(required: bool, u: Unstructured): Drawn<(bool, Unstructured)> {
    if required then Ok((true, u)) else ReadFlip(u)
  }

  /** `attrs`, and those of the fields that are required or chosen by a coin */
  function GenerateFields(
      s: Settings, fields: seq<Field>, maxDepth: nat, attrs: map<string, Value>, u: Unstructured)
    : Drawn<(Value, Unstructured)>
    decreases maxDepth, 1, |fields|
  {
    if fields == [] then Ok((RecordLit(attrs), u))
    else
      var (chosen, u1) :- ReadChosen(fields[0].required, u);
      if !chosen then GenerateFields(s, fields[1..], maxDepth, attrs, u1)
      else
        var (v, u2) :- GenerateValue(s, fields[0].ty, maxDepth, u1);
        GenerateFields(s, fields[1..], maxDepth, attrs[fields[0].key := v], u2)
  }

  // ----- which types can be served, and which values are of the type -----

  /** An entity of the type can be drawn: a made-up one, or one of the hierarchy. */
  predicate CanDrawUid(s: Settings, ty: Name) {
    || (ty in s.enumChoices ==> s.enumChoices[ty] != [])
    || (s.uidsByType.Some? && ty in s.uidsByType.value && s.uidsByType.value[ty] != [])
  }

  /** Some run generates a value. */
  predicate CanGenerate(s: Settings, ty: Type, depth: nat)
    decreases ty
  {
    match ty
    case EntityType(name) => CanDrawUid(s, name)
    case RecordType(fields) => depth > 0 ==> forall f <- fields :: f.required ==> CanGenerate(s, f.ty, depth - 1)
    case IpAddrType => depth > 0 && s.matchTypes
    case DecimalType => depth > 0 && s.matchTypes
    case DateTimeType => depth > 0 && s.matchTypes
    case DurationType => depth > 0 && s.matchTypes
    case _ => true
  }

  /** A record at the depth bound needs an attribute, where a run can get to it. */
  predicate CanMistype(s: Settings, ty: Type, depth: nat)
    decreases ty
  {
    match ty
    case SetType(element) => depth > 0 && s.maxWidth > 0 && CanMistype(s, element, depth - 1)
    case RecordType(fields) =>
      if depth == 0 then exists f <- fields :: f.required
      else CanGenerate(s, ty, depth) && exists f <- fields :: CanMistype(s, f.ty, depth - 1)
    case _ => false
  }

  lemma {:induction false} FitsNotMistyped(s: Settings, ty: Type, depth: nat)
    requires Fits(ty, depth)
    ensures !CanMistype(s, ty, depth)
    decreases ty
  {
    match ty
    case SetType(element) => if depth > 0 { FitsNotMistyped(s, element, depth - 1); }
    case RecordType(fields) =>
      if depth > 0 {
        forall f | f in fields
          ensures !CanMistype(s, f.ty, depth - 1)
        {
          FitsNotMistyped(s, f.ty, depth - 1);
        }
      }
    case _ =>
  }

  lemma UidDrawn(s: Settings, ty: Name, u: Unstructured)
    requires ArbitraryUid(s, ty, u).Ok?
    ensures CanDrawUid(s, ty)
  {
  }

  lemma {:induction false} GeneratedCan(s: Settings, ty: Type, depth: nat, u: Unstructured)
    requires GenerateValue(s, ty, depth, u).Ok?
    ensures CanGenerate(s, ty, depth)
    decreases ty
  {
    match ty
    case EntityType(name) => UidDrawn(s, name, u);
    case RecordType(fields) => if depth > 0 { FieldsGeneratedCan(s, fields, depth - 1, map[], u); }
    case _ =>
  }

  lemma {:induction false} FieldsGeneratedCan(
      s: Settings, fields: seq<Field>, depth: nat, attrs: map<string, Value>, u: Unstructured)
    requires GenerateFields(s, fields, depth, attrs, u).Ok?
    ensures forall f <- fields :: f.required ==> CanGenerate(s, f.ty, depth)
    decreases fields
  {
    if fields != [] {
      assert fields[0] in fields;
      var (chosen, u1) := ReadChosen(fields[0].required, u).value;
      if !chosen {
        FieldsGeneratedCan(s, fields[1..], depth, attrs, u1);
      } else {
        GeneratedCan(s, fields[0].ty, depth, u1);
        var (v, u2) := GenerateValue(s, fields[0].ty, depth, u1).value;
        FieldsGeneratedCan(s, fields[1..], depth, attrs[fields[0].key := v], u2);
      }
    }
  }

  /** A value has the type unless the depth bound can cut off what the type needs. */
  lemma {:induction false} UncutTyped(s: Settings, ty: Type, maxDepth: nat, u: Unstructured)
    requires Indexed(s) && !CanMistype(s, ty, maxDepth) && GenerateValue(s, ty, maxDepth, u).Ok?
    ensures HasType(GenerateValue(s, ty, maxDepth, u).value.0, ty)
    decreases maxDepth, 0, 0
  {
    match ty
    case SetType(element) =>
      if maxDepth > 0 { UncutElementsTyped(s, element, maxDepth - 1, s.maxWidth, [], u); }
    case RecordType(fields) =>
      if maxDepth > 0 {
        GeneratedCan(s, ty, maxDepth, u);
        UncutFieldsTyped(s, fields, fields, maxDepth - 1, map[], u);
      }
    case IpAddrType => ExtCallTyped(s, ty, u);
    case DecimalType => ExtCallTyped(s, ty, u);
    case DateTimeType => ExtCallTyped(s, ty, u);
    case DurationType => ExtCallTyped(s, ty, u);
    case _ =>
  }

  lemma {:induction false} UncutElementsTyped(
      s: Settings, element: Type, maxDepth: nat, n: nat, l: seq<Value>, u: Unstructured)
    requires Indexed(s) && (n > 0 ==> !CanMistype(s, element, maxDepth)) && (forall e <- l :: HasType(e, element))
    requires GenerateElements(s, element, maxDepth, n, l, u).Ok?
    ensures HasType(GenerateElements(s, element, maxDepth, n, l, u).value.0, SetType(element))
    decreases maxDepth, 1, n
  {
    if n > 0 && ReadFlip(u).value.0 {
      var u1 := ReadFlip(u).value.1;
      UncutTyped(s, element, maxDepth, u1);
      var (v, u2) := GenerateValue(s, element, maxDepth, u1).value;
      UncutElementsTyped(s, element, maxDepth, n - 1, l + [v], u2);
    }
  }

  /** Every attribute so far has the type of its field, and every required field passed is there. */
  ghost predicate AttrsFit(attrs: map<string, Value>, all: seq<Field>, rest: seq<Field>) {
    && (forall k | k in attrs :: exists f <- all :: f.key == k && HasType(attrs[k], f.ty))
    && (forall f <- all :: f in rest || (f.required ==> f.key in attrs))
  }

  lemma AttrsGrow(attrs: map<string, Value>, all: seq<Field>, rest: seq<Field>, v: Value)
    requires AttrsFit(attrs, all, rest) && rest != [] && rest[0] in all && HasType(v, rest[0].ty)
    ensures AttrsFit(attrs[rest[0].key := v], all, rest[1..])
  {
    var more := attrs[rest[0].key := v];
    forall k | k in more
      ensures exists f <- all :: f.key == k && HasType(more[k], f.ty)
    {
      if k != rest[0].key { assert k in attrs && more[k] == attrs[k]; }
    }
    assert forall f | f in rest && f !in rest[1..] :: f == rest[0];
  }

  lemma {:induction false} UncutFieldsTyped(
      s: Settings, all: seq<Field>, rest: seq<Field>, maxDepth: nat, attrs: map<string, Value>, u: Unstructured)
    requires Indexed(s) && (forall f <- all :: !CanMistype(s, f.ty, maxDepth)) && (forall f <- rest :: f in all)
    requires AttrsFit(attrs, all, rest) && GenerateFields(s, rest, maxDepth, attrs, u).Ok?
    ensures HasType(GenerateFields(s, rest, maxDepth, attrs, u).value.0, RecordType(all))
    decreases maxDepth, 1, |rest|
  {
    if rest != [] {
      var f := rest[0];
      assert f in rest;
      var (chosen, u1) := ReadChosen(f.required, u).value;
      if !chosen {
        assert forall x | x in rest && x !in rest[1..] :: x == f;
        UncutFieldsTyped(s, all, rest[1..], maxDepth, attrs, u1);
      } else {
        UncutTyped(s, f.ty, maxDepth, u1);
        var (v, u2) := GenerateValue(s, f.ty, maxDepth, u1).value;
        AttrsGrow(attrs, all, rest, v);
        UncutFieldsTyped(s, all, rest[1..], maxDepth, attrs[f.key := v], u2);
      }
    }
  }

  /** `generate_attr_value_for_type`: it fails, or its value has the type, whenever no record below
      the depth bound needs an attribute. */
  method GenerateAttrValue(s: Settings, ty: Type, maxDepth: nat, u: Unstructured)
    returns (r: Drawn<(Value, Unstructured)>)
    requires Indexed(s)
    ensures r == GenerateValue(s, ty, maxDepth, u)
    ensures r.Ok? && Fits(ty, maxDepth) ==> HasType(r.value.0, ty)
    decreases maxDepth, 0
  {
    match ty {
      case BoolType =>
        var b :- ReadFlip(u);
        r := Ok((BoolLit(b.0), b.1));
      case LongType =>
        var i :- ReadIndex(u, 0x1_0000_0000_0000_0000);
        r := Ok((IntLit(i.0 as int - 0x8000_0000_0000_0000), i.1));
      case StringType =>
        var text :- ReadText(u);
        r := Ok((StringLit(text.0), text.1));
      case EntityType(name) =>
        r := ArbitraryUid(s, name, u);
      case SetType(element) =>
        if maxDepth == 0 {
          r := Ok((SetLit([]), u));
        } else {
          r := GenerateSet(s, element, maxDepth - 1, u);
        }
      case RecordType(fields) =>
        if maxDepth == 0 {
          r := Ok((RecordLit(map[]), u));
        } else {
          r := GenerateRecord(s, fields, maxDepth - 1, u);
        }
      case _ =>
        if maxDepth == 0 {
          return Err(TooDeep);
        }
        r := ArbitraryExtCall(s, ty, u);
    }
    if r.Ok? && Fits(ty, maxDepth) {
      FitsNotMistyped(s, ty, maxDepth);
      UncutTyped(s, ty, maxDepth, u);
    }
  }

  /** The loop for sets */
  method GenerateSet(s: Settings, element: Type, maxDepth: nat, u: Unstructured)
    returns (r: Drawn<(Value, Unstructured)>)
    requires Indexed(s)
    ensures r == GenerateElements(s, element, maxDepth, s.maxWidth, [], u)
    decreases maxDepth, 1
  {
    var l: seq<Value>, rest := [], u;
    for i := 0 to s.maxWidth
      invariant GenerateElements(s, element, maxDepth, s.maxWidth, [], u)
             == GenerateElements(s, element, maxDepth, s.maxWidth - i, l, rest)
    {
      var more :- ReadFlip(rest);
      if !more.0 {
        return Ok((SetLit(l), more.1));
      }
      var v :- GenerateAttrValue(s, element, maxDepth, more.1);
      l, rest := l + [v.0], v.1;
    }
    r := Ok((SetLit(l), rest));
  }

  /** The loop for records */
  method GenerateRecord(s: Settings, fields: seq<Field>, maxDepth: nat, u: Unstructured)
    returns (r: Drawn<(Value, Unstructured)>)
    requires Indexed(s)
    ensures r == GenerateFields(s, fields, maxDepth, map[], u)
    decreases maxDepth, 1
  {
    var attrs: map<string, Value>, rest := map[], u;
    for i := 0 to |fields|
      invariant GenerateFields(s, fields, maxDepth, map[], u) == GenerateFields(s, fields[i..], maxDepth, attrs, rest)
    {
      var f := fields[i];
      assert fields[i..][1..] == fields[i + 1..];
      var chosen :- ReadChosen(f.required, rest);
      rest := chosen.1;
      if chosen.0 {
        var v :- GenerateAttrValue(s, f.ty, maxDepth, rest);
        attrs, rest := attrs[f.key := v.0], v.1;
      }
    }
    r := Ok((RecordLit(attrs), rest));
  }

  /** The two bounds agree: a type generated at a depth, resolved, and a value generated for it at the
      same depth, with the entities of any hierarchy or of none. */
  method GenerateForBoundedType(
      additional: bool, entityTypes: seq<Name>, namespace: Option<Name>, depth: nat, u: Unstructured,
      h: Hierarchies.Hierarchy?, enumChoices: map<Name, seq<string>>, matchTypes: bool, maxWidth: nat, u': Unstructured)
    returns (ty: Option<Type>, r: Drawn<(Value, Unstructured)>)
    requires h != null ==> h.Valid()
    ensures ArbitrarySchemaType(additional, entityTypes, depth, u).Ok? <==> ty.Some?
    ensures ty.Some? ==>
              Resolve(map[], namespace, ArbitrarySchemaType(additional, entityTypes, depth, u).value.0, 0)
              == Done(ty.value)
    ensures ty.Some? && r.Ok? ==> HasType(r.value.0, ty.value)
  {
    var generated := ArbitrarySchemaType(additional, entityTypes, depth, u);
    if generated.Err? {
      return None, Err(generated.error);
    }
    BoundedTypeFits(additional, entityTypes, depth, u, namespace);
    ty := Some(Resolve(map[], namespace, generated.value.0, 0).value);
    var index := None;
    if h != null {
      Hierarchies.IndexedByType(h);
      index := Some(h.uidsByType);
    }
    r := GenerateAttrValue(Settings(index, enumChoices, matchTypes, maxWidth), ty.value, depth, u');
  }
}
